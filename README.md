# Weather sync engine: a Dafny model

`weatherservice` copies readings from a weather-station cloud API into a SQL
Server database. On each run it does the following:

- It asks the API for the device list, with a session id that it obtains by
  logging in when it has none. It logs in again and repeats the request
  whenever the API answers with a status other than `OK`.
- It merges the devices into the `Stations` table.
- For every device, it looks up the newest stored timestamp (the watermark)
  of each of nine sensors. It splits the sensors into a *new* group (no
  usable watermark) and an *existing* group.
- It plans time windows for each group. The new group gets the last 365 days,
  cut at calendar-month boundaries. The existing group gets the range from
  just after the oldest watermark to now, cut into 30-day chunks when that
  range is older than 30 days.
- It fetches every window, skipping the ones whose fetch fails. It stores
  each response in one transaction that upserts the numeric points keyed by
  (station, sensor, timestamp).

The project models that engine in six modules, one file each:

| file | module | models |
|---|---|---|
| `wrappers.dfy` | `Wrappers` | `Option` and `Result` |
| `calendar.dfy` | `Calendar` | UTC civil months; Go's truncating millisecond-to-second conversion |
| `periods.dfy` | `Periods` | `timePeriod`, `splitTimePeriodByDays` and `splitTimePeriodByMonth`, as loops proved against specification functions |
| `api.dfy` | `Api` | the `WeatherAPI` client as a class with a `SessionID` field over a scripted server (`Remote`). The retry recursion is modelled as the functions `Fetch`/`Ask`; the record-to-map conversion as a loop |
| `database.dfy` | `Database` | the `DBManager` as a class whose two tables are maps. Its constraints are the map keys (UNIQUE) and `ForeignKeysHold` (FK). Its writes are transactions on a working copy that commit or roll back |
| `service.dfy` | `Service` | `processDevice` (watermark lookups, grouping, plan, window loops), `processAndSaveTelemetry` and `collectData` |

The server is a script of replies per endpoint. A reply is an answer
(status and data), a transport failure or an undecodable body. An exhausted
script reads as a transport failure. Every request the client sends is
logged on the server, so the contracts can say which requests a call makes.
Database faults are parameters: the transaction's begin, prepare and commit
steps, the rows whose execution fails, and failing reads.

## Model

| member | source | states |
|---|---|---|
| Calendar.UnixSeconds | cmd/weatherservice/main.go:291-292 | `ts/1000` truncates toward zero: the remainder is in `[0, 1000)` for non-negative and `(-1000, 0]` for negative milliseconds |
| Calendar.MonthStartDayIsCivil | cmd/weatherservice/main.go:295-300 | stepping month by month from January 1970 (`AddDate(0, 1, 0)`) lands on the closed-form Gregorian day count of the 1st of every month, before and after 1970 |
| Calendar.NextMonthStart | cmd/weatherservice/main.go:300 | the next month starts `DaysInMonth` days later (28 to 31, with leap Februaries), strictly after this one |
| Calendar.MonthStartIncreasing | cmd/weatherservice/main.go:307-318 | month starts strictly increase with the month index, so the month loop moves forward |
| Calendar.MonthUnique | cmd/weatherservice/main.go:291-295 | a second lies in exactly one month |
| Calendar.MonthOf | cmd/weatherservice/main.go:295 | the month found for a second is the one whose `[1st, next 1st)` contains it (`fromTime.Year()`, `fromTime.Month()`) |
| Calendar.DayOfMonth | cmd/weatherservice/main.go:298 | the day of month is at least 1, and is 1 exactly when the second falls in the first 86400 seconds of its month (`fromTime.Day() > 1`) |
| Periods.SplitTimePeriodByDays | cmd/weatherservice/main.go:330-351 | the loop returns exactly the windows of `DayWindows(tsFrom, tsTo, days * 86400000)` |
| Periods.DayWindowsTile | cmd/weatherservice/main.go:337-348 | the windows are empty exactly when `tsFrom >= tsTo`. Otherwise they start at `tsFrom` and end at `tsTo`, are chained and non-empty, stay within `[tsFrom, tsTo]`, and are `days` long except possibly the last, which is shorter |
| Periods.SplitTimePeriodByMonth | cmd/weatherservice/main.go:287-327 | the loop, with its `Before(toTime)` guard on whole seconds and its `>= tsTo` break, returns exactly `MonthPlan(tsFrom, tsTo)` |
| Periods.MonthWindowsAligned | cmd/weatherservice/main.go:307-318 | the `i`-th window of the month loop starts at 00:00 on the 1st of month `k + i` and ends no later than the 1st of the next month |
| Periods.MonthWindowsShape | cmd/weatherservice/main.go:307-324 | the month loop's windows are chained from the 1st of the start month and none is empty. None ends after `tsTo`, and the last ends within the second before `tsTo`. There are none exactly when the 1st of the start month is not before `toTime` |
| Periods.MonthWindowsInMonths | cmd/weatherservice/main.go:307-318 | every window of the month loop starts on the 1st of its own month and ends by the 1st of the next |
| Periods.MonthPlanPartialFirstMonth | cmd/weatherservice/main.go:298-304 | when `tsFrom` is past the 1st, the first window is `[tsFrom, min(1st of next month, tsTo))`, non-empty when `tsFrom < tsTo` |
| Periods.MonthPlanStartsAtMidnight | cmd/weatherservice/main.go:295-307 | when `tsFrom` is on the 1st and the plan is non-empty (`toTime` is a later second), the plan starts at 00:00 that day; for timestamps from 1970 on that is at or before `tsFrom` and less than one day before it |
| Periods.MonthPlanShape | cmd/weatherservice/main.go:287-327 | every month plan is chained and each window stays within one calendar month. Every window but the first starts on a 1st. No window ends after `tsTo`, the last within a second of it, and none is empty when `tsFrom < tsTo` |
| Api.LoginAdoptsOnlyGoodSessions | pkg/api/weatherapi.go:156-170 | a login succeeds exactly when the reply decodes, its status is not `"error"` and its session id is non-empty; the adopted session is that id |
| Api.Remote.PostLogin | pkg/api/weatherapi.go:146-159 | the login endpoint returns its next scripted reply, consumes it, and logs one login request |
| Api.Remote.PostDevices | pkg/api/weatherapi.go:190-203 | the devices endpoint returns its next reply, consumes it, and logs a devices request carrying the session id |
| Api.Remote.PostTelemetry | pkg/api/weatherapi.go:238-251 | the telemetry endpoint returns its next reply, consumes it, and logs the request with its query |
| Api.Remote.PostLatest | pkg/api/weatherapi.go:308-321 | the latest-telemetry endpoint returns its next reply, consumes it, and logs the request with its query |
| Api.WeatherApi.constructor | pkg/api/weatherapi.go:125-132 | a new client, as `NewWeatherAPI` builds it, has no session (`SessionID` is left empty) |
| Api.WeatherApi.Login | pkg/api/weatherapi.go:135-171 | returns no error exactly when the login reply is a good session; it then sets `SessionID` to it, and leaves it unchanged on every error; one login request is sent |
| Api.WeatherApi.EnsureSession | pkg/api/weatherapi.go:175-179 | with a session nothing is sent; without one, exactly one login is attempted and its error, if any, is returned |
| Api.WeatherApi.GetDevices | pkg/api/weatherapi.go:174-215 | the result, the new session and the requests sent are those of the `Fetch` run: login if no session, then ask; re-login and ask again after every non-`OK` status |
| Api.WeatherApi.AskDevices | pkg/api/weatherapi.go:181-214 | with a session, the result, session and requests are those of the `Ask` run (the retry recursion) |
| Api.WeatherApi.GetTelemetry | pkg/api/weatherapi.go:218-281 | as `GetDevices`, for the telemetry query of one device, its keys and `[tsFrom, tsTo]`; an `OK` answer is converted to a map by key |
| Api.WeatherApi.AskTelemetry | pkg/api/weatherapi.go:225-280 | with a session, the result is the converted `Ask` run of the telemetry query |
| Api.WeatherApi.GetLatestTelemetry | pkg/api/weatherapi.go:284-351 | as `GetTelemetry`, for several devices and the window `[now - 24 h, now]` |
| Api.WeatherApi.AskLatestTelemetry | pkg/api/weatherapi.go:292-350 | with a session, the result is the converted `Ask` run of the latest-telemetry query |
| Api.NoRequestWithoutSession | pkg/api/weatherapi.go:175-179 | with no session and a failing login, the only request is the login, no data reply is consumed, and the login's error is returned |
| Api.FetchCalls | pkg/api/weatherapi.go:175-212 | every fetch makes at least one call, and every data request carries a non-empty session id |
| Api.FetchSession | pkg/api/weatherapi.go:205-212 | after a fetch, the session is the one held before or one adopted from a consumed login reply; login replies are consumed in order |
| Api.RetryIsUnbounded | pkg/api/weatherapi.go:205-212 | for every `n`, `n` non-`OK` answers each followed by a good login, and then an `OK` answer, give that answer's data after exactly `2n + 1` calls: the recursion has no retry bound |
| Api.OkIsFirstOkAnswer | pkg/api/weatherapi.go:205-214 | a successful fetch returns the data of the first `OK` answer; every answer before it was non-`OK` |
| Api.AskOk | pkg/api/weatherapi.go:205-214 | the same for a fetch that starts with a session |
| Api.ToPointMap | pkg/api/weatherapi.go:263-278 | the conversion loop builds exactly `PointsByKey(records)`: per key, the points of that key's records in response order, `dbl_v` when non-zero and `str_v` otherwise |
| Api.PointsByKeyAppend | pkg/api/weatherapi.go:277 | one more record appends its point to the end of its key's list and changes no other key |
| Api.PointsByKeyCount | pkg/api/weatherapi.go:264-278 | the map holds exactly as many points as the response has records: none lost, none duplicated |
| Api.PointsByKeyNonEmpty | pkg/api/weatherapi.go:277 | a key appears in the map only with at least one point |
| Api.PointsForHas | pkg/api/weatherapi.go:264-277 | every record's point is in its key's list |
| Database.LastNumericIsLast | pkg/database/database.go:188-241 | a timestamp gets a row exactly when some numeric point has it, and the row holds the value of the last numeric point with that timestamp |
| Database.Writes | pkg/database/database.go:207-241 | a row key is written exactly when a processed sensor has a numeric point at that timestamp |
| Database.Upsert | pkg/database/database.go:188-198 | adds the key if absent, with `DateValue` from the truncated seconds. Otherwise it sets only `Value` and keeps `DateValue`. Every other row is unchanged |
| Database.StorePointsIsStored | pkg/database/database.go:208-240 | upserting one sensor's points in order gives the table with each written key set to its last numeric value |
| Database.SensorStored | pkg/database/database.go:207-241 | storing one more sensor on top of the sensors already stored gives the store of all of them, so the map's iteration order does not change the result |
| Database.StoredIdempotent | pkg/database/database.go:188-198 | storing the same response twice leaves the table as storing it once |
| Database.StoredFrame | pkg/database/database.go:229-235 | rows of other stations are neither added, removed nor changed |
| Database.StoredKeepsForeignKeys | pkg/database/database.go:83-84 | a store whose rows all belong to an existing station keeps every row's station in `Stations` |
| Database.NumericOnlyStored | pkg/database/database.go:223-226 | dropping the non-numeric points first stores the same table |
| Database.PointRejected | pkg/database/database.go:229-239 | a numeric point whose execution fails, or any numeric point for a station missing from `Stations` (the FK), makes the execution phase fail |
| Database.DBManager.constructor | pkg/database/database.go:56-89 | both tables start empty and satisfy the constraints |
| Database.DBManager.StoreTelemetry | pkg/database/database.go:172-249 | the error is the first of: begin, prepare, a failing exec, commit. On success the table is `Stored(old, device, data)`. On any error it is unchanged (rollback). `Stations` is untouched and the FK still holds |
| Database.DBManager.StoreStations | pkg/database/database.go:112-169 | the error is the first of: begin, prepare, a failing merge, commit. On success every device's id now has that device's row, the last one for a repeated id, and other stations are unchanged. On error the table is unchanged |
| Database.MergeIsMerged | pkg/database/database.go:127-161 | the merge loop equals the closed form: ids of the list take the row of their last device, other ids keep theirs |
| Database.MergeIdempotent | pkg/database/database.go:127-141 | merging the same device list twice equals merging it once |
| Database.DBManager.GetLatestTelemetryTimestamp | pkg/database/database.go:252-271 | a failed query returns 0 and an error. Otherwise it returns 0 when the pair has no rows, else the greatest stored timestamp of that station and sensor |
| Database.LatestUnique | pkg/database/database.go:254-259 | that answer is unique |
| Database.StoredRaisesLatest | pkg/database/database.go:252-271 | after a store, the watermark is at least the timestamp of every numeric point stored |
| Database.DBManager.GetStations | pkg/database/database.go:274-295 | the error order is query, scan, iteration, and an error returns no ids. On success the ids are exactly the stations' ids, without repeats |
| Service.SortSensors | cmd/weatherservice/main.go:132-159 | each sensor's lookup is the watermark query's answer. The groups are the new and existing sensors in key order, and `minTsFrom` is `now` lowered to every positive watermark |
| Service.PlanDevice | cmd/weatherservice/main.go:119-221 | the lookups of `sensorKeys`, and the plan they give: groups, `tsFrom`, new-group windows and existing-group windows (none for an empty group) |
| Service.GroupMembers | cmd/weatherservice/main.go:138-158 | a key is in a group exactly when some position of it has a lookup of that group (failed or not positive means new) |
| Service.GroupsSplit | cmd/weatherservice/main.go:135-159 | the two groups together have as many entries as there are keys |
| Service.ExactlyOneGroup | cmd/weatherservice/main.go:138-158 | with distinct keys, each sensor is in the new group exactly when its lookup failed or gave a watermark `<= 0`, and in the existing group otherwise |
| Service.MinTsFromIsMin | cmd/weatherservice/main.go:132-154 | `minTsFrom` is at most `now`, at most every positive watermark, and equal to `now` or one of them |
| Service.FetchFromIsConservative | cmd/weatherservice/main.go:161-166 | `tsFrom` is at most one past every existing watermark and at most `now`. It equals `now` exactly when the oldest watermark is `now - 1`. With no usable watermark it is 15 minutes before `now` |
| Service.EmptyWindowAtNow | cmd/weatherservice/main.go:212-221 | when the oldest watermark is `now - 1`, the existing group fetches the single empty window `[now, now]` |
| Service.ExistingPlanCovers | cmd/weatherservice/main.go:211-221 | the existing group's windows run from `tsFrom` to `now`, chained and within range, none over 30 days, and non-empty when `tsFrom < now` |
| Service.NewPlanCoversYear | cmd/weatherservice/main.go:177-180 | the new group's windows start within the day before `now - 365 days` and have the month-plan shape up to `now` |
| Service.ProcessAndSaveTelemetry | cmd/weatherservice/main.go:249-278 | returns the number of points received, or 0 when there are none (nothing stored) or the store fails (nothing stored). On success the table is the store of the response. Only this station's rows change |
| Service.CountsDroppedPoints | cmd/weatherservice/main.go:251-277 | a response of only non-numeric points that commits reports all its points although it stores nothing |
| Service.ZeroReadingNotStored | pkg/api/weatherapi.go:270-274 | a reading whose `dbl_v` is exactly 0 arrives as its `str_v`; when every record of that key and timestamp is such a reading and its `str_v` is not a JSON number, the store writes no row for it: the row is absent if it was absent and otherwise stays as it was |
| Service.NonZeroReadingStored | pkg/api/weatherapi.go:270-271 | every record with a non-zero `dbl_v` has a row after the store |
| Service.StoredTouchesOnly | cmd/weatherservice/main.go:265 | a device's store loses no row and changes only that station's rows |
| Service.FetchWindow | cmd/weatherservice/main.go:185-196 | the fetch result is that of one `GetTelemetry` from the client's session and scripts, which move on accordingly. A failed fetch stores nothing and counts 0. A successful one counts and stores as `processAndSaveTelemetry` does. Every data request is for that window |
| Service.FetchWindows | cmd/weatherservice/main.go:183-238 | the fetch results are those of one `GetTelemetry` per window in order, each continuing from the session the previous one left, whatever happened to it. The table is each successful response stored in turn (`StoreWindows`), and the count is their sum. Every request is for this device alone |
| Service.FailedWindowsStoreNothing | cmd/weatherservice/main.go:186-193 | windows whose fetches all failed leave the table as it was and count 0 |
| Service.StoreWindowsTouchesOnly | cmd/weatherservice/main.go:183-238 | the window loop loses no row and changes only this station's rows |
| Service.ProcessDevice | cmd/weatherservice/main.go:115-246 | plans from the watermarks in the table as it was. It then fetches the new group's windows and, continuing from the session that left, the existing group's windows, for this device alone. The table becomes the new group's responses stored in turn, then the existing group's, and the count is their sum. `Stations` is untouched |
| Service.CollectData | cmd/weatherservice/main.go:89-112 | if listing devices fails, nothing is stored and no device is processed. Otherwise the stations are merged unless that transaction fails. Every listed device is then processed in list order even so, each starting from the table and session the previous one left, the first from the session the listing left |
| Service.ProcessDevices | cmd/weatherservice/main.go:107-109 | each listed device is processed in turn (`DevicesInTurn`): device `i` starts from the table and session device `i - 1` left, its requests are for itself alone, and only rows of listed stations change |

## Left out

- The network, HTTP and JSON are left out. The server is a script of replies per endpoint, and marshalling errors cannot happen in the model. The HTTP client's 120-second timeout shows up only as a transport-failure reply.
- Periods.SplitTimePeriodByDays: integers are unbounded in the model. The `int64` millisecond timestamps stay far from their limits, but the interval length `days * 24 * 60 * 60 * 1000` is computed in Go's `int` before the `int64` conversion. On a 32-bit platform 30 days (2,592,000,000 ms) overflows to a negative interval, and the loop then never ends for a range longer than 30 days. The model states the 64-bit behaviour only. Periods.SplitTimePeriodByMonth likewise converts month starts through `UnixNano()`, which Go defines only for dates between about 1678 and 2262, while `MonthPlan` accepts any `tsFrom` and `tsTo`; the only call passes `now - 365 days` and `now`, which stay well inside that range.
- The clock is a parameter (`now` in `DeviceEnv` and in `GetLatestTelemetry`).
- Months are computed in UTC. The source uses the host's local time zone, which the model does not capture.
- `GetLatestTelemetry` uses one `now` for every retry, whereas the source reads the clock again on each recursive call.
- `main`, the ticker, the signal handling, configuration loading and `NewDBManager`/`Close` are not part of this model. Neither are the throughput figures of `processAndSaveTelemetry` (floating-point logging) or the log messages.
- `CreateTablesIfNotExists` is modelled only through the constraints it creates: `Stations.ID` primary key, the `Telemetry` foreign key and the UNIQUE key (map keys). Its indexes are left out, and so is the `IDENTITY` column.
- `LastUpdate = GETDATE()` is not modelled: a station row holds name, label and coordinates only.
- SQL is modelled as map operations, and a transaction as a working copy that is installed on commit. Concurrent transactions, isolation and panics (the deferred `recover`) are left out.
- Floating point is not modelled. Telemetry values are real numbers or JSON tags, and `dbl_v` is a real compared with 0. In `StoreTelemetry`, only the `float64` case of the type switch can occur, because a decoded JSON number is always a `float64` in Go. The `float32`, `int` and `int64` cases are therefore folded into "is a JSON number".
- The `GetStations` iteration order is not modelled: the ids come in some order of the table, and the model states the set and that it has no repeats.
- Service.GroupsSplit: states that the group sizes add up, not that the two groups together are a permutation of the keys. Membership is stated separately by `GroupMembers` and `ExactlyOneGroup`.
- Service.ProcessAndSaveTelemetry: its returned count is specified through the ghost `SavedCount`/`TotalPoints`. The count loop itself is not a separate method.
- Service.CollectData: the per-device environment (clock reading, failing lookups, store faults) is a function of the device's position in the list.

Where the code and the design description disagree, the model follows the code:

- `splitTimePeriodByMonth` starts the plan at 00:00 of `tsFrom`'s day when `tsFrom` falls on the 1st of a month, not at `tsFrom` (`MonthPlanStartsAtMidnight`).
- Its last window can end up to a second before `tsTo`, because the loop guard compares whole seconds (`MonthWindowsShape`, `EndsBy`).
- With `tsFrom >= tsTo` and `tsFrom` past the 1st, it returns one window running backwards (`MonthPlanPartialFirstMonth`) rather than none.
- A reading whose `dbl_v` is exactly 0 and whose `str_v` is not a JSON number is dropped (`ZeroReadingNotStored`); a zero `dbl_v` whose `str_v` is a number is stored as that number. Responses whose points are all non-numeric still count as saved (`CountsDroppedPoints`). A watermark of `now - 1` requests the empty window `[now, now]` (`EmptyWindowAtNow`).
