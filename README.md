# Production tracking backend, modelled in Dafny

This project models the service layer of a vehicle-assembly tracking application. It has a
NestJS backend over one PostgreSQL database and a React dashboard. The model covers:

- **Vehicle models** (`models` table): create, read, update and delete, keyed on `modelId`.
- **Stations** (`station` table): CRUD with a unique `code`. Listings are ordered by
  `sequence`. A station that any production log refers to cannot be deleted. The schema
  modelled is the one in `BackEnd/src/productions/entity/station.entity.ts:10-20`, which
  declares the unique `code` and the `sequence` columns the service queries. The entity
  that `BackEnd/src/station/station.service.ts:8` imports,
  `BackEnd/src/station/entity/station.entity.ts`, declares neither column.
- **Productions of a day** (`production` table). A date's production is found, or created
  as `AUTO-<date>` of model `AUTO`. The quality verdict can be set. The day's status board
  lists the active stations and every production with its logs.
- **Station logs** (`production_station_log` table): one log per (production, station)
  pair, found or created by that pair. The schema modelled is the one in
  `BackEnd/src/productions/entity/production-station-log.entity.ts`, whose line 20 declares
  the pair unique. The entity the service imports
  (`BackEnd/src/production-station-log/entity/production-station-log.entity.ts`, line 4 of
  the service) is not part of this model. The find-or-create operations keep the
  one-log-per-pair invariant themselves: `UpsertLog` ensures `Valid` and that its result is
  the pair's only log. The requested times or status are applied to it,
  and the period in minutes is recomputed. The per-station status board shows, for each
  active station, the status log of the production with the greatest id.
- **Plans** (`production_month_plans`, `production_daily_plans` tables):
  - month and day targets are upserted by their natural keys;
  - deleting a month plan cascades to its daily plans;
  - the daily summary joins each daily plan with its month plan and adds the month's
    running total of results;
  - totals are summed over the summary rows.
- **Vehicle progress** (`production_status` table). A record per vehicle number holds an
  ordered timeline of station visits. Adding a station closes the visit in progress. A
  quality verdict closes it as well and counts the vehicle in its model's daily and
  monthly plan. Removing a record with a verdict takes that count back, never below zero.
- **The dashboard's date formatter** (`formatLocalDate`, `getTodayLocalDate`).

## Structure

- All services share one database object, `Database.Db`.
  - Each table is a `seq` field of `Db`.
  - The ghost predicate `Valid` collects the schema's keys, unique constraints and foreign
    keys. It also includes the timeline invariant: only the last visit may be open.
  - Every operation that writes keeps `Valid`.
- Each service file becomes a module of methods.
  - A method takes the `Db` and changes only the tables named in its `modifies` clause.
  - Its `ensures` state the whole new state of those tables and the result.
  - Read-only operations are functions that `reads db`. The exceptions are
    `StationLogService.GetStationStatusByDate` and `ProductionPlanService.GetDailySummary`.
    These two are methods, because the source builds their result in a loop.
- Identifiers that the database generates (`uuid`) and the current time are parameters
  (`newId`, `now`). A generated identifier is uuid text (`Database.UuidText`).
- Lookups by a `uuid` key refuse an id that is not uuid text with `DbError`, before any
  row is looked at, as PostgreSQL does. Only a well-formed id that no row has is
  `NotFound`.
- Errors are values:
  - `NotFound` and `BadRequest` are the exceptions the services throw;
  - `DbError` is an error from the database or the data layer: a write the schema refuses
    (a unique violation or a foreign-key violation), an id that is not uuid text,
    a date that is not a real calendar
    date, or an update with no field to set.
- Supporting modules:
  - `Common`: option and result types, `Find`, `Filter`, sums;
  - `Ordering`: lexicographic string order and a verified insertion sort for
    `ORDER BY`;
  - `Text`: `String(n)` and `padStart`;
  - `Calendar`: dates, the dates PostgreSQL accepts, `date_trunc('month', …)` and the
    `YYYY-MM-DD` text.

## Model

| member | source | states |
|---|---|---|
| DateUtils.FormatLocalDate | FrontEnd/src/utils/dateUtils.ts:6-11 | The text is the year, a dash, the two-digit 1-based month and the two-digit day. For four-digit years it is exactly 10 characters and reads back as that date. |
| DateUtils.MonthFieldRange | FrontEnd/src/utils/dateUtils.ts:8 | Months 0..11 give two-digit fields whose value is the 1-based month. The field starts with "0" exactly for the first nine months. |
| DateUtils.DayFieldRange | FrontEnd/src/utils/dateUtils.ts:9 | Days 1..31 give two-digit fields carrying the day. |
| DateUtils.FormatLocalDateInjective | FrontEnd/src/utils/dateUtils.ts:6-11 | Two valid dates with four-digit years format alike only if they are the same date. |
| DateUtils.GetTodayLocalDate | FrontEnd/src/utils/dateUtils.ts:17-19 | Today's text is 10 characters long and reads back as today's local calendar date. |
| Text.PadStart2 | FrontEnd/src/utils/dateUtils.ts:8-9 | `padStart(2, '0')` leaves strings of two or more characters alone. It prefixes zeros to shorter strings up to length 2. |
| Text.TwoDigitFieldInjective | FrontEnd/src/utils/dateUtils.ts:8-9 | Distinct numbers below 100 pad to distinct fields. |
| DateUtils.FormatFields | FrontEnd/src/utils/dateUtils.ts:7-10 | For a valid date the text is the year's digits, a dash, two digits with the 1-based month and two digits with the day. With a four-digit year it is the 10-character form that reads back as the date. |
| Text.NatToString | FrontEnd/src/utils/dateUtils.ts:8-9 | `String(n)` of a natural number is a run of digits whose value is `n`, without a leading zero. |
| Text.TwoDigitField | FrontEnd/src/utils/dateUtils.ts:8-9 | A number below 100, rendered and padded, is exactly two digits whose value is the number. |
| Calendar.ParseIsoDate | BackEnd/src/production-plans/dto/create-daily-plan.dto.ts:27-29 | Reads text of the form `^\d{4}-\d{2}-\d{2}$`. A date it reads has a year of at most four digits and a month and day of at most two. |
| Calendar.DaysInMonth | BackEnd/src/production-plans/dto/create-daily-plan.dto.ts:27-29 | A month has 28 to 31 days. It has 29 exactly for February of a leap year. |
| Calendar.FebruaryDays | BackEnd/src/production-plans/dto/create-daily-plan.dto.ts:27-29 | `ValidDate` is a real date in the range of PostgreSQL's `date` type: month 1..12 and day 1..the month's length. February 29 is valid exactly in leap years. February 30, month 13 and month 0 never are, although the format check lets "2026-13-01" and "2026-02-30" through. |
| Calendar.MonthStartValid | BackEnd/src/production-plans/production-plans.service.ts:117 | The month start of a real date is a real date. |
| Calendar.PlanMonthValid | BackEnd/src/production-plans/production-plans.service.ts:22 | `${month}-01` is a real date exactly when the month is 1..12 and the year is in range. |
| Calendar.MonthStart | BackEnd/src/production-plans/production-plans.service.ts:117 | `date_trunc('month', d)` is day 1 of the same year and month. |
| Calendar.PlanMonthOf | BackEnd/src/production-plans/production-plans.service.ts:22 | The stored `${month}-01` is the month start of that month. |
| Calendar.BetweenMonthStartAnd | BackEnd/src/production-plans/production-plans.service.ts:120 | `r BETWEEN date_trunc('month', d) AND d` holds exactly for days 1..d.day of d's month. |
| Calendar.FormatThenParse | BackEnd/src/production-status/production-status.service.ts:164-169 | The `YYYY-MM-DD` text of a date with a four-digit year reads back as the same date, so matching on the text matches on the date. |
| Calendar.ParseThenFormat | BackEnd/src/production-status/production-status.service.ts:164-169 | Text in the accepted format whose year has no leading zero renders back to itself. |
| Database.UuidDigitsLength | BackEnd/src/productions/entity/station.entity.ts:7 | After `i` of the 16 bytes, the rest of a uuid text holds two hex digits per remaining byte, plus at most one hyphen per remaining pair of bytes. |
| Database.UuidTextLength | BackEnd/src/productions/entity/station.entity.ts:7 | Text the `uuid` column accepts has 32 to 41 characters, so a short id such as "abc" is refused. |
| Database.CanonicalIsUuid | BackEnd/src/productions/entity/station.entity.ts:7 | The hyphenated 8-4-4-4-12 form of generated keys is accepted, so looking up a generated key is a lookup, not an error. |
| Ordering.SortBy | BackEnd/src/model/model.service.ts:20-22 | `ORDER BY` returns a permutation of the rows: the same multiset, length and elements. |
| Ordering.SortBySorted | BackEnd/src/model/model.service.ts:20-22 | Sorted by a total preorder, every earlier row sorts at or before every later one. |
| Ordering.SortedByStrAsc | BackEnd/src/model/model.service.ts:20-22 | `ORDER BY key ASC` on a text key gives keys in ascending string order. |
| Ordering.SortedByStrDesc | BackEnd/src/production/production.service.ts:75-76 | `ORDER BY productionNo DESC` gives keys in descending string order. |
| Ordering.SortedByIntAsc | BackEnd/src/station/station.service.ts:23-25 | `ORDER BY sequence ASC` gives ascending sequence numbers. |
| ModelService.GetAll | BackEnd/src/model/model.service.ts:19-23 | Every model, as a permutation of the table, ordered by `modelId`. |
| ModelService.GetById | BackEnd/src/model/model.service.ts:25-31 | Not-found exactly when no model has the id; otherwise the model with that id. |
| ModelService.Create | BackEnd/src/model/model.service.ts:33-43 | Bad-request exactly when the `modelId` exists, with no change; otherwise exactly the new model is appended. |
| ModelService.ApplyUpdate | BackEnd/src/model/model.service.ts:61 | The supplied fields replace the stored ones; the absent ones are kept. |
| ModelService.SaveModel | BackEnd/src/model/model.service.ts:62 | `save` overwrites the row with the same key or inserts one. The saved model is in the table, other keys' rows are kept, the length grows only on insert, and keys stay unique. |
| ModelService.SaveThenFind | BackEnd/src/model/model.service.ts:62 | After a save, the only row under the saved key is the saved model. |
| ModelService.Update | BackEnd/src/model/model.service.ts:45-63 | Not-found for an unknown key. Bad-request for a rename to a key in use; an empty new key skips that check. Otherwise the merged model is saved. Without a rename, exactly that row is overwritten in place. |
| ModelService.Delete | BackEnd/src/model/model.service.ts:65-73 | Not-found exactly for an unknown key; otherwise the table loses exactly the rows of that key, and only one. |
| StationService.GetAllStations | BackEnd/src/station/station.service.ts:22-26 | Every station, as a permutation of the table, ordered by `sequence`. |
| StationService.GetStationById | BackEnd/src/station/station.service.ts:28-32 | A database error exactly when the id is not uuid text. Not-found exactly when the id is well formed and no station has it; otherwise that station. |
| StationService.CreateStation | BackEnd/src/station/station.service.ts:34-48 | Bad-request exactly when the code exists, with no change. Otherwise it appends the station, active unless the request says otherwise, and a lookup by the new id finds it. |
| StationService.ApplyUpdate | BackEnd/src/station/station.service.ts:64 | The supplied fields replace the stored ones; the id and absent fields are kept. |
| StationService.UpdateStation | BackEnd/src/station/station.service.ts:50-66 | The lookup's error, with no change, for an id that is not uuid text (database error) or not known (not-found). Bad-request for a change to a code in use; an empty new code skips that check. A database error when the merged code still clashes with another station. Otherwise exactly that station is overwritten. |
| StationService.DeleteStation | BackEnd/src/station/station.service.ts:68-84 | A database error for an id that is not uuid text, and not-found for an unknown well-formed id, each with no change. Bad-request while a log refers to the station. Otherwise exactly that station is removed, and the logs' station references stay valid. |
| StationService.GetActiveStations | BackEnd/src/station/station.service.ts:86-91 | Exactly the active stations, as a permutation of them, ordered by `sequence`. |
| ProductionService.Create | BackEnd/src/production/production.service.ts:18-20 | Appends exactly the new production under the generated id. |
| ProductionService.OfDate | BackEnd/src/production/production.service.ts:28-31 | Exactly the productions of the date. |
| ProductionService.LogsOf | BackEnd/src/production/production.service.ts:30 | The loaded `stations` relation is exactly the production's logs. |
| ProductionService.StationOf | BackEnd/src/production/production.service.ts:49-57 | The embedded station is the one the log refers to. With a valid reference it is present exactly when the log names a station. |
| ProductionService.ViewOfLog | BackEnd/src/production/production.service.ts:42-58 | The projected log copies every field and embeds the referenced station. |
| ProductionService.ViewOfProduction | BackEnd/src/production/production.service.ts:34-60 | The projected production copies every field and maps its logs one to one, in order. |
| ProductionService.GetStatusByDate | BackEnd/src/production/production.service.ts:22-63 | The board's stations are the active stations by `sequence`. Its productions are the date's productions, one view each, all of that date. They come in table order; the source leaves the order unspecified. |
| ProductionService.StatusViewsLinkStations | BackEnd/src/production/production.service.ts:49-57 | In a valid database every embedded station is the referenced row. It is absent exactly when the log names no station. |
| ProductionService.LatestOfDate | BackEnd/src/production/production.service.ts:74-77 | None exactly when the date has no production. Otherwise a production of the date whose `productionNo` is the greatest. |
| ProductionService.AutoProduction | BackEnd/src/production/production.service.ts:80-84 | The created production has number `AUTO-` followed by the date text, model `AUTO`, that date, and no verdict or remark. |
| ProductionService.LatestOfDateSingle | BackEnd/src/production/production.service.ts:79-87 | A date whose only production is the new one finds that production. |
| ProductionService.FindOrCreateByDate | BackEnd/src/production/production.service.ts:73-88 | The latest production of the date with the table unchanged, or a new `AUTO` production appended. Either way it is then the date's latest production. |
| ProductionService.UpdateQuality | BackEnd/src/production/production.service.ts:65-71 | A database error exactly for an id that is not uuid text, and not-found exactly for an unknown well-formed id, each with no change. Otherwise the verdict is set, the remark is replaced only when given, and no other production changes. |
| StationLogService.FindLog | BackEnd/src/production-station-log/production-station-log.service.ts:27-33 | The position of a log of the pair, or none exactly when the pair has no log. |
| StationLogService.PeriodMinutes | BackEnd/src/production-station-log/production-station-log.service.ts:51-54 | The period times 60000 is the difference of the timestamps. It is non-negative when the start is not after the end. |
| StationLogService.ApplyTimes | BackEnd/src/production-station-log/production-station-log.service.ts:42-54 | Supplied times replace the stored ones and other fields are kept. The period is the minutes between the times whenever both are present, and kept otherwise. |
| StationLogService.ApplyTimesIdempotent | BackEnd/src/production-station-log/production-station-log.service.ts:42-54 | Repeating a time update changes nothing more. |
| StationLogService.ApplyStatus | BackEnd/src/production-station-log/production-station-log.service.ts:79-84 | The status and the reason are each replaced only when supplied; every other field is kept. |
| StationLogService.ApplyStatusIdempotent | BackEnd/src/production-station-log/production-station-log.service.ts:79-84 | Repeating a status update changes nothing more. |
| StationLogService.PairLogUnique | BackEnd/src/productions/entity/production-station-log.entity.ts:20 | In a valid table, a log of the pair is the pair's only log. |
| StationLogService.UpsertLog | BackEnd/src/production-station-log/production-station-log.service.ts:27-40 | A database error with no change when either id is not uuid text. Otherwise the pair's log is updated in place, or created, updated and appended when both references exist, or it is a database error with no change. Afterwards the result is the pair's only log. |
| StationLogService.UpdateStationTime | BackEnd/src/production-station-log/production-station-log.service.ts:22-57 | A database error for an id that is not uuid text; otherwise find or create the pair's log with the time update applied; the result is the pair's only log. |
| StationLogService.UpdateStationStatus | BackEnd/src/production-station-log/production-station-log.service.ts:59-87 | A database error for an id that is not uuid text; otherwise find or create the pair's log with the status update applied; the result is the pair's only log. |
| StationLogService.UpdateStationStatusByDate | BackEnd/src/production-station-log/production-station-log.service.ts:89-97 | The productions keep their count when the date has one, and otherwise gain exactly `AUTO-<date>`. The status update goes to the log of the date's latest production. |
| StationLogService.StatusLogOf | BackEnd/src/production-station-log/production-station-log.service.ts:116-118 | A log of the production at the station that has a status, or none exactly when every such log lacks a status. |
| StationLogService.SelectLatest | BackEnd/src/production-station-log/production-station-log.service.ts:115-129 | None exactly when no production has a status log at the station. Otherwise a production with such a log, whose id is the greatest among them, with that log. |
| StationLogService.NonEmpty | BackEnd/src/production-station-log/production-station-log.service.ts:139-140 | `x \|\| null` keeps exactly the present non-empty strings. |
| StationLogService.EntryOf | BackEnd/src/production-station-log/production-station-log.service.ts:131-141 | The entry carries the station summary. It is all nulls without a selection; otherwise it holds the selected log's status and reason and the production's number. |
| StationLogService.EntryOfReports | BackEnd/src/production-station-log/production-station-log.service.ts:109-142 | A selection meeting the loop's contract yields an entry that reports the greatest-id status log, or nulls when there is none. |
| StationLogService.ReportsDetermined | BackEnd/src/production-station-log/production-station-log.service.ts:120-127 | With distinct production ids, any two conforming entries for a station are equal, so the report does not depend on the choice. |
| StationLogService.DayDesc | BackEnd/src/production-station-log/production-station-log.service.ts:102-106 | Exactly the date's productions. |
| StationLogService.GetStationStatusByDate | BackEnd/src/production-station-log/production-station-log.service.ts:99-145 | One entry per active station, in `sequence` order. Each reports that station's latest status among the date's productions. |
| ProductionPlanService.FindMonthPlan | BackEnd/src/production-plans/production-plans.service.ts:25-27 | The position of a month plan with the key, or none exactly when the key has no row. |
| ProductionPlanService.FindDailyPlan | BackEnd/src/production-plans/production-plans.service.ts:71-73 | The position of a daily plan with the key, or none exactly when the key has no row. |
| ProductionPlanService.UpsertMonthPlan | BackEnd/src/production-plans/production-plans.service.ts:21-41 | A month whose first day is not a real date is refused with a database error, and nothing changes. Otherwise an existing (model, month start) row gets only `plannedMonth` replaced, or a row is appended. Either way the key then has exactly one row, so upserting twice leaves one row. |
| ProductionPlanService.GetAllMonthPlans | BackEnd/src/production-plans/production-plans.service.ts:43-49 | A month that is not a real one is refused with a database error. Otherwise: exactly the month's plans, as a permutation of them, ordered by model. |
| ProductionPlanService.DeleteMonthPlan | BackEnd/src/production-plans/production-plans.service.ts:51-65 | A month that is not a real one is refused with a database error, and nothing changes. Otherwise it removes the model's daily plans of that month, the daily plans linked to the deleted month plan, and the month plan. Every other row is kept in order. |
| ProductionPlanService.UpsertDailyResult | BackEnd/src/production-plans/production-plans.service.ts:69-89 | A date that is not a real one is refused with a database error, and nothing changes. Otherwise an existing (model, date) row gets `plannedDay` replaced and `actualDay` replaced only when supplied, or a row is appended with `actualDay` as supplied or 0. The key then has exactly one row. |
| ProductionPlanService.GetAllDailyPlans | BackEnd/src/production-plans/production-plans.service.ts:91-96 | A date that is not a real one is refused with a database error. Otherwise: exactly the date's daily plans, as a permutation of them, ordered by model. |
| ProductionPlanService.DeleteDailyPlan | BackEnd/src/production-plans/production-plans.service.ts:98-101 | A date that is not a real one is refused with a database error, and nothing changes. Otherwise it removes exactly the rows with the key and keeps the others in order. |
| ProductionPlanService.RowsFor | BackEnd/src/production-plans/production-plans.service.ts:114-117 | The rows of one daily plan are exactly its joins with matching month plans. With unique month keys there is at most one. |
| ProductionPlanService.JoinRows | BackEnd/src/production-plans/production-plans.service.ts:114-121 | The rows are exactly the joins of the given daily plans with their month plans. |
| ProductionPlanService.SummaryRows | BackEnd/src/production-plans/production-plans.service.ts:106-130 | A row exists exactly for each daily plan of the date joined with its month plan, carrying the month-to-date sum. Rows are ordered by model. |
| ProductionPlanService.JoinRowsDistinct | BackEnd/src/production-plans/production-plans.service.ts:122-126 | Daily plans with distinct models give rows with distinct models. |
| ProductionPlanService.SummaryModelsDistinct | BackEnd/src/production-plans/production-plans.service.ts:122-127 | With the tables' unique keys the summary has one row per model. |
| ProductionPlanService.SummaryModels | BackEnd/src/production-plans/production-plans.service.ts:114-121 | A model has a row exactly when it has a daily plan on the date and a month plan for that month. |
| ProductionPlanService.CumulativeIsRunningTotal | BackEnd/src/production-plans/production-plans.service.ts:118-120 | With unique day keys, the cumulative column is the running total of the month's results from day 1 to the date, day by day. |
| ProductionPlanService.SumTotals | BackEnd/src/production-plans/production-plans.service.ts:132-146 | Each total is the sum of its column over the rows; all totals are zero for no rows. |
| ProductionPlanService.TotalsSplit | BackEnd/src/production-plans/production-plans.service.ts:132-146 | Column sums add up over concatenated rows. |
| ProductionPlanService.GetDailySummary | BackEnd/src/production-plans/production-plans.service.ts:105-153 | A date that is not a real one is refused with a database error. Otherwise the summary of a date holds that date, its rows and their column totals. |
| ProductionStatusService.FindOne | BackEnd/src/production-status/production-status.service.ts:52-64 | A database error exactly when the id is not uuid text. Not-found exactly when the id is well formed and no record has it; otherwise that record. |
| ProductionStatusService.Create | BackEnd/src/production-status/production-status.service.ts:27-46 | Bad-request exactly when the vehicle number exists, with no change. Otherwise it appends a record with no verdict and an empty timeline, which a lookup by the new id finds. Unique vehicle numbers stay unique. |
| ProductionStatusService.ApplyUpdate | BackEnd/src/production-status/production-status.service.ts:88 | The supplied fields replace the stored ones; the id, verdict, timeline and absent fields are kept. |
| ProductionStatusService.Update | BackEnd/src/production-status/production-status.service.ts:66-90 | The lookup's error, with no change, for an id that is not uuid text or not known. Bad-request for a change to a vehicle number in use; an empty new number skips that check. A request with no field to set is refused with a database error (`update` with nothing to set), and nothing changes. Otherwise exactly that record is overwritten. Vehicle numbers stay unique unless the new number is empty. |
| ProductionStatusService.CloseLast | BackEnd/src/production-status/production-status.service.ts:103-109 | Only an open last visit changes, and it closes at the given time. When only the last visit could be open, all visits are closed afterwards. |
| ProductionStatusService.CloseLastIdempotent | BackEnd/src/production-status/production-status.service.ts:133-139 | Closing a second time keeps the first closing time. |
| ProductionStatusService.WithStation | BackEnd/src/production-status/production-status.service.ts:98-116 | The timeline grows by exactly one and its new last visit is the open new one. Earlier visits are unchanged, and an open previous visit closes at the new start. Only the last visit stays open. |
| ProductionStatusService.AddStationToTimeline | BackEnd/src/production-status/production-status.service.ts:92-123 | The lookup's error, with no change, for an id that is not uuid text or not known. Otherwise that record's timeline gains the visit, starting at the requested time or now, and no other record changes. |
| ProductionStatusService.AdjustCount | BackEnd/src/production-status/production-status.service.ts:158-204 | The counter update keeps both plan tables' lengths; its row-by-row effect is `AdjustCountRows`. |
| ProductionStatusService.AdjustCountRows | BackEnd/src/production-status/production-status.service.ts:171-198 | Exactly the daily plan of the model and date moves one step, and so does exactly the month plan it links to. Nothing changes without such a daily plan. |
| ProductionStatusService.AdjustCountKeepsTables | BackEnd/src/production-status/production-status.service.ts:182-197 | Moving the counters keeps the plan tables' keys, ids and month links valid. |
| ProductionStatusService.DownUndoesUp | BackEnd/src/production-status/production-status.service.ts:244-259 | With non-negative counters, a count down after a count up restores both tables. |
| ProductionStatusService.TwoUpsAddTwo | BackEnd/src/production-status/production-status.service.ts:182-197 | Two counts up add 2 to the matched daily plan and to its month plan, so counting is not idempotent. |
| ProductionStatusService.AdjustPlanCount | BackEnd/src/production-status/production-status.service.ts:158-266 | The plan tables become the counted-up tables (`updateProductionPlanCount`) or the counted-down tables with each counter floored at zero (`decrementProductionPlanCount`), and they stay valid. |
| ProductionStatusService.WithQuality | BackEnd/src/production-status/production-status.service.ts:131-145 | An open last visit closes now, and the verdict and remark are replaced when given. With only the last visit open before, every visit is closed after. |
| ProductionStatusService.UpdateQuality | BackEnd/src/production-status/production-status.service.ts:125-156 | The lookup's error, with nothing changed, for an id that is not uuid text or not known. Otherwise only that record changes. Given a verdict, the plan tables are counted up once for the record's model and date; without one they are unchanged. |
| ProductionStatusService.Remove | BackEnd/src/production-status/production-status.service.ts:206-218 | The lookup's error, with nothing changed, for an id that is not uuid text or not known. Otherwise the record, and only it, is removed. A record with a verdict counts the plan tables down, and one without leaves them unchanged. |

## Left out

- HTTP controllers, modules, request validation, the dashboard's components, its API
  client and the seed script are not part of this model. Only the services' logic is
  modelled.
- Concurrency: every operation runs alone. The read-then-write counter updates would race
  under concurrent requests.
- The `try`/`catch` in the plan-count updates swallows database failures. The model has no
  failing step there, so the counters always move as stated. Console logging is left out.
- Time zones: a production date is a calendar date. The UTC shift that `toISOString()`
  can introduce when matching it against `workDate` is not modelled.
- String order: `ORDER BY` and JavaScript's `>` on ids are modelled as code-point
  (lexicographic) order. A database collation other than that is not modelled.
- Generated identifiers and the clock are parameters: `newId` must be fresh, and `now` is
  the current time.
- `getDailySummary`'s `GROUP BY` is not a separate step. With the unique keys of both
  tables each group holds one row (`SummaryModelsDistinct`), so the rows are taken as the
  join itself.
- Numeric encodings: counters and sums are unbounded integers. PostgreSQL returns `SUM` as
  text, which the service passes through `Number`; that conversion is left out.
- StationLogService.UpdateStationTime: `periodMinutes` is a fraction (`real`), and the
  column's integer storage type is not modelled. The untyped `@Column() periodMinutes?:
  number` is stored as `integer`
  (`BackEnd/src/productions/entity/production-station-log.entity.ts:49-50`), so a save with
  a fractional period is refused. In the source, start and end times that are not a whole
  number of minutes apart therefore end in a database error; the model returns `Ok`.
- `cumulative` is not a declared column of the month plan entity. It is modelled as the
  field the service reads and writes. A new month plan has it 0 in the model, although
  `upsertMonthPlan` writes no value for it. The counters read a missing value as 0
  (`monthPlan.cumulative || 0`), so they act the same either way.
- `stationTimeline` is not a declared column of the production-status entity. It is
  modelled as the record's field, as the service uses it. The unused `stationStart` and
  `stationEnd` columns are left out.
- Request fields are present or absent (`Option`). An explicit JSON `null` is treated as
  absent.
- Only the plans service refuses a date that is not a real calendar date. The other
  services take a date as given and do not model that database error.
- Date texts in requests are the canonical `YYYY-MM-DD` form. Other texts that PostgreSQL
  would also read as dates are not modelled.
- `findAll` of the production-status service returns the table as it is; it has nothing
  to state and is not modelled.
- The station-daily-status and station-downtime-log services pass requests straight to
  their repositories; they are not part of this model.
- `BackEnd/src/productions/productions.service.ts` repeats the station, production and
  station-log operations of the other services. Each is modelled once, by the member the
  table lists for the original service. The repeated spans are:
  - `StationService.GetAllStations`: lines 226-230;
  - `StationService.GetStationById`: lines 232-236;
  - `StationService.CreateStation`: lines 238-252;
  - `StationService.UpdateStation`: lines 254-270;
  - `StationService.DeleteStation`: lines 272-288;
  - `ProductionService.Create`: lines 27-29;
  - `ProductionService.GetStatusByDate`: lines 31-72;
  - `ProductionService.UpdateQuality`: lines 217-223;
  - `StationLogService.UpdateStationTime`: lines 74-111;
  - `StationLogService.UpdateStationStatus`: lines 113-141;
  - `StationLogService.UpdateStationStatusByDate`: lines 143-164;
  - `StationLogService.GetStationStatusByDate`: lines 166-215.
- ProductionStatusService.DownUndoesUp: assumes every counter of both plan tables is
  non-negative. Only the two rows it moves need to be.
- DateUtils.FormatLocalDate: the read-back clause covers four-digit years only, the years
  the `YYYY-MM-DD` format can hold.
