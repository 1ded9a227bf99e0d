/**
 * The sync loop of the weather service (cmd/weatherservice/main.go):
 * `processDevice` sorts the configured sensors by their watermark, plans the
 * windows to fetch for each group, fetches them one by one skipping the
 * windows whose fetch fails, and stores what arrives through
 * `processAndSaveTelemetry`; `collectData` does that for every device the
 * API lists, after merging the devices into the Stations table.
 */
module Service {
  import opened Wrappers
  import opened Calendar
  import opened Periods
  import opened Api
  import opened Database

  /** The sensor keys the service collects, in the order it looks them up (`sensorKeys`). */
  const SensorKeys: seq<string> := [
    "airtemp", "soiltemp", "airmoist", "rainfall", "rainfall_daily",
    "windspeed", "windspeedmax", "winddir", "winddirang"]

  /** The default look-back of the existing group when no watermark is usable: 15 minutes. */
  const IntervalMs := 15 * 60 * 1000

  /** How far back a new sensor is filled: 365 days. */
  const YearMs := 365 * MsPerDay

  /** Beyond this look-back the existing group's range is cut into chunks: 30 days. */
  const MonthMs := 30 * MsPerDay

  // ---------------------------------------------------------------------
  // The plan of one device

  /** What the watermark lookup of one sensor gave: an error, or the timestamp (0 for no rows). */
  datatype Lookup = LookupFailed | Watermark(ts: int)

  /** A failed lookup and a watermark that is not positive both put the sensor in the new group. */
  predicate IsNew(l: Lookup) {
    l.LookupFailed? || l.ts <= 0
  }

  /** `l` is what `GetLatestTelemetryTimestamp` answers for this sensor when the sensors in `fails` cannot be queried. */
  predicate LooksUp(t: map<RowKey, TelemetryRow>, station: string, sensor: string, fails: set<string>, l: Lookup) {
    if sensor in fails then l == LookupFailed
    else l.Watermark? && IsLatest(t, station, sensor, l.ts)
  }

  /** The keys whose lookup puts them in the new group (`isNew`) or in the existing one, in key order. */
  function Group(keys: seq<string>, ls: seq<Lookup>, isNew: bool): seq<string>
    requires |keys| == |ls|
  {
    if |keys| == 0 then []
    else
      var n := |keys| - 1;
      Group(keys[..n], ls[..n], isNew) + (if IsNew(ls[n]) == isNew then [keys[n]] else [])
  }

  /** `minTsFrom`: `now`, lowered to every positive watermark below it. */
  function MinTsFrom(now: int, ls: seq<Lookup>): int {
    if |ls| == 0 then now
    else
      var m := MinTsFrom(now, ls[..|ls| - 1]);
      var l := ls[|ls| - 1];
      if !IsNew(l) && l.ts < m then l.ts else m
  }

  /** One more key and its lookup: the key joins the end of its own group only. */
  lemma GroupStep(keys: seq<string>, ls: seq<Lookup>, l: Lookup, isNew: bool)
    requires |ls| < |keys|
    ensures var i := |ls|;
      Group(keys[..i + 1], ls + [l], isNew) == Group(keys[..i], ls, isNew) + (if IsNew(l) == isNew then [keys[i]] else [])
  {
    var i := |ls|;
    assert keys[..i + 1][..i] == keys[..i];
    assert (ls + [l])[..i] == ls;
  }

  /** One more lookup lowers `minTsFrom` to its watermark when that is positive and lower. */
  lemma MinTsFromStep(now: int, ls: seq<Lookup>, l: Lookup)
    ensures MinTsFrom(now, ls + [l]) == if !IsNew(l) && l.ts < MinTsFrom(now, ls) then l.ts else MinTsFrom(now, ls)
  {
    assert (ls + [l])[..|ls|] == ls;
  }

  /** `tsFrom`: one past `minTsFrom` when that lies in `(0, now)`, otherwise 15 minutes before `now`. */
  function FetchFrom(now: int, minTsFrom: int): int {
    if minTsFrom < now && minTsFrom > 0 then minTsFrom + 1 else now - IntervalMs
  }

  /** The windows of the existing group: 30-day chunks when `tsFrom` is over 30 days back, else `[tsFrom, now)`. */
  function ExistingPlan(tsFrom: int, now: int): seq<TimePeriod> {
    if tsFrom < now - MonthMs then DayWindows(tsFrom, now, MonthMs) else [TimePeriod(tsFrom, now)]
  }

  /** The windows of the new group: the last 365 days cut at month boundaries. */
  function NewPlan(now: int): seq<TimePeriod> {
    MonthPlan(now - YearMs, now)
  }

  /** Everything `processDevice` decides before its first fetch. */
  datatype Plan = Plan(
    newSensors: seq<string>,
    existingSensors: seq<string>,
    tsFrom: int,
    newWindows: seq<TimePeriod>,
    existingWindows: seq<TimePeriod>)

  /** The plan for the lookups `ls` of `SensorKeys`; a group without sensors fetches nothing. */
  function PlanOf(now: int, ls: seq<Lookup>): Plan
    requires |ls| == |SensorKeys|
  {
    var newSensors := Group(SensorKeys, ls, true);
    var existingSensors := Group(SensorKeys, ls, false);
    var tsFrom := FetchFrom(now, MinTsFrom(now, ls));
    Plan(newSensors, existingSensors, tsFrom,
         if |newSensors| > 0 then NewPlan(now) else [],
         if |existingSensors| > 0 then ExistingPlan(tsFrom, now) else [])
  }

  // ---------------------------------------------------------------------
  // Properties of the plan

  /** A key is in a group exactly when one of its positions has a lookup of that group. */
  lemma {:induction false} GroupMembers(keys: seq<string>, ls: seq<Lookup>, isNew: bool, x: string)
    requires |keys| == |ls|
    ensures x in Group(keys, ls, isNew) <==> exists i :: 0 <= i < |keys| && keys[i] == x && IsNew(ls[i]) == isNew
  {
    if |keys| > 0 {
      var n := |keys| - 1;
      GroupMembers(keys[..n], ls[..n], isNew, x);
      if exists i :: 0 <= i < |keys| && keys[i] == x && IsNew(ls[i]) == isNew {
        var i :| 0 <= i < |keys| && keys[i] == x && IsNew(ls[i]) == isNew;
        if i < n {
          assert keys[..n][i] == x && IsNew(ls[..n][i]) == isNew;
        }
      }
    }
  }

  /** The two groups together are as long as the key list. */
  lemma {:induction false} GroupsSplit(keys: seq<string>, ls: seq<Lookup>)
    requires |keys| == |ls|
    ensures |Group(keys, ls, true)| + |Group(keys, ls, false)| == |keys|
  {
    if |keys| > 0 {
      var n := |keys| - 1;
      GroupsSplit(keys[..n], ls[..n]);
    }
  }

  /**
   * With distinct keys, each key lands in exactly one group: the new group
   * when its lookup failed or found no positive watermark, the existing
   * group otherwise.
   */
  lemma ExactlyOneGroup(keys: seq<string>, ls: seq<Lookup>, i: int)
    requires |keys| == |ls| && 0 <= i < |keys|
    requires forall a, b :: 0 <= a < b < |keys| ==> keys[a] != keys[b]
    ensures keys[i] in Group(keys, ls, true) <==> IsNew(ls[i])
    ensures keys[i] in Group(keys, ls, false) <==> !IsNew(ls[i])
  {
    GroupMembers(keys, ls, true, keys[i]);
    GroupMembers(keys, ls, false, keys[i]);
  }

  /**
   * `minTsFrom` is the smaller of `now` and the smallest watermark of the
   * existing group: at most each of them, and equal to one of them.
   */
  lemma {:induction false} MinTsFromIsMin(now: int, ls: seq<Lookup>)
    ensures MinTsFrom(now, ls) <= now
    ensures forall i :: 0 <= i < |ls| && !IsNew(ls[i]) ==> MinTsFrom(now, ls) <= ls[i].ts
    ensures MinTsFrom(now, ls) == now || exists i :: 0 <= i < |ls| && !IsNew(ls[i]) && MinTsFrom(now, ls) == ls[i].ts
  {
    if |ls| > 0 {
      var n := |ls| - 1;
      MinTsFromIsMin(now, ls[..n]);
      forall i | 0 <= i < |ls| && !IsNew(ls[i])
        ensures MinTsFrom(now, ls) <= ls[i].ts
      {
        if i < n {
          assert ls[..n][i] == ls[i];
        }
      }
      if MinTsFrom(now, ls) != now && !(!IsNew(ls[n]) && MinTsFrom(now, ls) == ls[n].ts) {
        var i :| 0 <= i < n && !IsNew(ls[..n][i]) && MinTsFrom(now, ls[..n]) == ls[..n][i].ts;
        assert ls[i] == ls[..n][i];
      }
    }
  }

  /**
   * The existing group's range starts early enough: no later than one past
   * any existing sensor's watermark, and never after `now`. It is `now`
   * itself, leaving the empty window `[now, now)`, exactly when `minTsFrom`
   * is `now - 1` (and positive). With no usable watermark it is `now` minus
   * 15 minutes.
   */
  lemma FetchFromIsConservative(now: int, ls: seq<Lookup>)
    ensures forall i :: 0 <= i < |ls| && !IsNew(ls[i]) ==> FetchFrom(now, MinTsFrom(now, ls)) <= ls[i].ts + 1
    ensures FetchFrom(now, MinTsFrom(now, ls)) <= now
    ensures FetchFrom(now, MinTsFrom(now, ls)) == now <==> MinTsFrom(now, ls) == now - 1 && now - 1 > 0
    ensures (forall i :: 0 <= i < |ls| ==> IsNew(ls[i])) ==> FetchFrom(now, MinTsFrom(now, ls)) == now - IntervalMs
  {
    MinTsFromIsMin(now, ls);
  }

  /** When `tsFrom` is `now` the existing group still makes one request, for the empty window `[now, now)`. */
  lemma EmptyWindowAtNow(now: int)
    ensures ExistingPlan(now, now) == [TimePeriod(now, now)]
  {
  }

  /**
   * The existing group's windows tile `[tsFrom, now)`: they start at
   * `tsFrom`, end at `now`, each ends where the next starts, none is longer
   * than 30 days and, when the range is not empty, none is empty.
   */
  lemma ExistingPlanCovers(tsFrom: int, now: int)
    requires tsFrom <= now
    ensures var plan := ExistingPlan(tsFrom, now);
      && plan != []
      && plan[0].from == tsFrom && plan[|plan| - 1].to == now
      && Chained(plan)
      && AllWithin(plan, tsFrom, now)
      && (forall i :: 0 <= i < |plan| ==> plan[i].to - plan[i].from <= MonthMs)
      && (tsFrom < now ==> AllNonEmpty(plan))
  {
    if tsFrom < now - MonthMs {
      DayWindowsTile(tsFrom, now, MonthMs);
    }
  }

  /**
   * The new group's windows reach back over the whole year: the first one
   * starts at most a day before `now - 365 days` and not after it, they are
   * chained, each lies within one calendar month, none ends after `now`,
   * and the last ends within the second before `now`.
   */
  lemma NewPlanCoversYear(now: int)
    requires now >= YearMs
    ensures var plan := NewPlan(now);
      && plan != []
      && now - YearMs - MsPerDay < plan[0].from <= now - YearMs
      && MonthPlanShaped(plan, now - YearMs, now)
  {
    var tsFrom := now - YearMs;
    assert NewPlan(now) == MonthPlan(tsFrom, now);
    MonthPlanShape(tsFrom, now);
    if OnFirstDay(tsFrom) {
      assert UnixSeconds(tsFrom) < UnixSeconds(now) by {
        assert 0 <= tsFrom && tsFrom + 1000 <= now;
      }
      MonthPlanStartsAtMidnight(tsFrom, now);
    } else {
      MonthPlanPartialFirstMonth(tsFrom, now);
      assert MonthPlan(tsFrom, now)[0].from == tsFrom;
    }
  }

  // ---------------------------------------------------------------------
  // Planning

  /**
   * The sensor loop of `processDevice`: look up each sensor's watermark,
   * put the sensor in the new or the existing group, and lower `minTsFrom`
   * to each positive watermark below it.
   */
  method SortSensors(db: DBManager, deviceId: string, keys: seq<string>, now: int, lookupFails: set<string>)
    returns (newSensors: seq<string>, existingSensors: seq<string>, minTsFrom: int, ghost lookups: seq<Lookup>)
    ensures |lookups| == |keys|
    ensures forall i :: 0 <= i < |keys| ==> LooksUp(db.telemetry, deviceId, keys[i], lookupFails, lookups[i])
    ensures newSensors == Group(keys, lookups, true)
    ensures existingSensors == Group(keys, lookups, false)
    ensures minTsFrom == MinTsFrom(now, lookups)
  {
    newSensors := [];
    existingSensors := [];
    minTsFrom := now;
    lookups := [];
    for i := 0 to |keys|
      invariant |lookups| == i
      invariant forall j :: 0 <= j < i ==> LooksUp(db.telemetry, deviceId, keys[j], lookupFails, lookups[j])
      invariant newSensors == Group(keys[..i], lookups, true)
      invariant existingSensors == Group(keys[..i], lookups, false)
      invariant minTsFrom == MinTsFrom(now, lookups)
    {
      var sensorKey := keys[i];
      var lastTs, err := db.GetLatestTelemetryTimestamp(deviceId, sensorKey, sensorKey in lookupFails);
      ghost var l := if err.Some? then LookupFailed else Watermark(lastTs);
      GroupStep(keys, lookups, l, true);
      GroupStep(keys, lookups, l, false);
      MinTsFromStep(now, lookups, l);
      lookups := lookups + [l];
      if err.Some? {
        newSensors := newSensors + [sensorKey];
        continue;
      }
      if lastTs > 0 {
        existingSensors := existingSensors + [sensorKey];
        if lastTs < minTsFrom {
          minTsFrom := lastTs;
        }
      } else {
        newSensors := newSensors + [sensorKey];
      }
    }
    assert keys[..|keys|] == keys;
  }

  /**
   * The planning half of `processDevice`: sort the sensors, work out
   * `tsFrom`, and the windows of each group that has sensors.
   */
  method PlanDevice(db: DBManager, deviceId: string, now: int, lookupFails: set<string>)
    returns (plan: Plan, ghost lookups: seq<Lookup>)
    ensures |lookups| == |SensorKeys|
    ensures forall i :: 0 <= i < |SensorKeys| ==> LooksUp(db.telemetry, deviceId, SensorKeys[i], lookupFails, lookups[i])
    ensures plan == PlanOf(now, lookups)
  {
    var newSensors, existingSensors, minTsFrom;
    newSensors, existingSensors, minTsFrom, lookups := SortSensors(db, deviceId, SensorKeys, now, lookupFails);
    var tsFrom := now - IntervalMs;
    if minTsFrom < now && minTsFrom > 0 {
      tsFrom := minTsFrom + 1;
    }
    assert tsFrom == FetchFrom(now, minTsFrom);
    var newWindows: seq<TimePeriod> := [];
    if |newSensors| > 0 {
      var oneYearAgo := now - 365 * 24 * 60 * 60 * 1000;
      assert oneYearAgo == now - YearMs;
      newWindows := SplitTimePeriodByMonth(oneYearAgo, now);
    }
    assert newWindows == if |newSensors| > 0 then NewPlan(now) else [];
    var existingWindows: seq<TimePeriod> := [];
    if |existingSensors| > 0 {
      var oneMonthAgo := now - 30 * 24 * 60 * 60 * 1000;
      assert oneMonthAgo == now - MonthMs;
      if tsFrom < oneMonthAgo {
        existingWindows := SplitTimePeriodByDays(tsFrom, now, 30);
      } else {
        existingWindows := [TimePeriod(tsFrom, now)];
      }
      assert existingWindows == ExistingPlan(tsFrom, now);
    }
    plan := Plan(newSensors, existingSensors, tsFrom, newWindows, existingWindows);
  }

  // ---------------------------------------------------------------------
  // Storing one response

  /** The points of `m` under the keys in `ks`. */
  function Restrict(m: map<string, seq<TelemetryPoint>>, ks: set<string>): map<string, seq<TelemetryPoint>> {
    map k | k in ks && k in m :: m[k]
  }

  /** What `processAndSaveTelemetry` returns: every point received, or 0 when there are none or the store fails. */
  ghost function SavedCount(stations: map<string, StationRow>, dev: string, m: map<string, seq<TelemetryPoint>>, faults: TxFaults<RowKey>): nat {
    if TotalPoints(m) == 0 || TelemetryOutcome(stations, dev, m, faults).Some? then 0 else TotalPoints(m)
  }

  /** Table `after` differs from `before` only in rows of the stations in `ids`, and has lost no row. */
  predicate TouchesOnly(before: map<RowKey, TelemetryRow>, after: map<RowKey, TelemetryRow>, ids: set<string>) {
    && before.Keys <= after.Keys
    && forall k :: k in after && k.station !in ids ==> k in before && after[k] == before[k]
  }

  /** Changes confined to the stations in `some` are confined to any larger set of stations, and compose with earlier ones. */
  lemma TouchesOnlyWiden(start: map<RowKey, TelemetryRow>, before: map<RowKey, TelemetryRow>, after: map<RowKey, TelemetryRow>,
                         some: set<string>, all: set<string>)
    requires TouchesOnly(start, before, all) && TouchesOnly(before, after, some) && some <= all
    ensures TouchesOnly(start, after, all)
  {
  }

  lemma AppendAssociative(a: seq<Request>, b: seq<Request>, c: seq<Request>)
    ensures a + (b + c) == (a + b) + c
  {
  }

  /** Storing a device's data changes only that station's rows, and removes none. */
  lemma StoredTouchesOnly(t: map<RowKey, TelemetryRow>, dev: string, data: map<string, seq<TelemetryPoint>>)
    ensures TouchesOnly(t, Stored(t, dev, data, data.Keys), {dev})
  {
    StoredKeys(t, dev, data, data.Keys);
    forall k | k in Stored(t, dev, data, data.Keys) && k.station !in {dev}
      ensures k in t && Stored(t, dev, data, data.Keys)[k] == t[k]
    {
      StoredFrame(t, dev, data, data.Keys, k);
    }
  }

  /**
   * `processAndSaveTelemetry`: count the points of every key, and store
   * them unless there are none; the count is returned only when the store
   * succeeds.
   */
  method ProcessAndSaveTelemetry(deviceId: string, telemetry: map<string, seq<TelemetryPoint>>, db: DBManager, faults: TxFaults<RowKey>)
    returns (recordsCount: int)
    requires db.Valid()
    modifies db
    ensures db.Valid() && db.stations == old(db.stations)
    ensures recordsCount == SavedCount(old(db.stations), deviceId, telemetry, faults)
    ensures db.telemetry == if recordsCount > 0 then Stored(old(db.telemetry), deviceId, telemetry, telemetry.Keys) else old(db.telemetry)
    ensures TouchesOnly(old(db.telemetry), db.telemetry, {deviceId})
  {
    recordsCount := 0;
    var rest := telemetry.Keys;
    assert Restrict(telemetry, rest) == telemetry;
    while rest != {}
      modifies {}
      invariant rest <= telemetry.Keys
      invariant recordsCount + TotalPoints(Restrict(telemetry, rest)) == TotalPoints(telemetry)
      decreases rest
    {
      var key :| key in rest;
      TotalPointsAt(Restrict(telemetry, rest), key);
      assert Restrict(telemetry, rest) - {key} == Restrict(telemetry, rest - {key});
      recordsCount := recordsCount + |telemetry[key]|;
      rest := rest - {key};
    }
    assert Restrict(telemetry, rest) == map[];
    if recordsCount == 0 {
      return 0;
    }
    var err := db.StoreTelemetry(deviceId, telemetry, faults);
    if err.Some? {
      return 0;
    }
    StoredTouchesOnly(old(db.telemetry), deviceId, telemetry);
  }

  /**
   * `processAndSaveTelemetry` counts points the store drops: a response
   * whose points are all non-numeric reports every one of them when the
   * transaction goes through, while the table is left as it was.
   */
  lemma CountsDroppedPoints(stations: map<string, StationRow>, t: map<RowKey, TelemetryRow>, dev: string,
                            m: map<string, seq<TelemetryPoint>>, faults: TxFaults<RowKey>)
    requires forall s, i :: s in m && 0 <= i < |m[s]| ==> Numeric(m[s][i].value).None?
    requires TotalPoints(m) > 0 && !faults.begin && !faults.prepare && !faults.commit
    ensures SavedCount(stations, dev, m, faults) == TotalPoints(m)
    ensures Stored(t, dev, m, m.Keys) == t
  {
    assert Writes(dev, m, m.Keys) == {} by {
      forall k | Written(dev, m, m.Keys, k)
        ensures false
      {
        LastNumericFinds(m[k.sensor], k.ts);
      }
    }
    var a := Assigned(dev, m, m.Keys);
    assert Apply(t, a) == t by {
      assert a.Keys == {};
      assert Apply(t, a).Keys == t.Keys;
    }
    assert TelemetryOutcome(stations, dev, m, faults).None?;
  }

  // ---------------------------------------------------------------------
  // What a fetched response leaves in the table

  /** When no record of `key` at `ts` converts to a numeric point, the converted points hold no value there. */
  lemma {:induction false} NoNumericAt(records: seq<TelemetryRecord>, key: string, ts: int)
    requires forall j :: 0 <= j < |records| && records[j].key == key && records[j].ts == ts ==> Numeric(ToPoint(records[j]).value).None?
    ensures LastNumeric(PointsFor(records, key), ts).None?
  {
    if |records| > 0 {
      var n := |records| - 1;
      NoNumericAt(records[..n], key, ts);
      var ps := PointsFor(records, key);
      if records[n].key == key {
        assert ps[..|ps| - 1] == PointsFor(records[..n], key);
      } else {
        assert ps == PointsFor(records[..n], key);
      }
    }
  }

  /**
   * A reading of exactly 0.0 carries its `StrV` as the point. When every
   * record of the key and timestamp is such a reading and its `StrV` is not
   * a number, the row is left as it was (absent, or unchanged).
   */
  lemma ZeroReadingNotStored(t: map<RowKey, TelemetryRow>, dev: string, records: seq<TelemetryRecord>, key: string, ts: int)
    requires forall j :: 0 <= j < |records| && records[j].key == key && records[j].ts == ts ==>
      records[j].dblV == 0.0 && !records[j].strV.JNumber?
    ensures var data := PointsByKey(records);
      var k := RowKey(dev, key, ts);
      && (k in Stored(t, dev, data, data.Keys) <==> k in t)
      && (k in t ==> Stored(t, dev, data, data.Keys)[k] == t[k])
  {
    NoNumericAt(records, key, ts);
    assert !Written(dev, PointsByKey(records), PointsByKey(records).Keys, RowKey(dev, key, ts));
  }

  /** A non-zero reading is stored: after the store its row exists. */
  lemma NonZeroReadingStored(t: map<RowKey, TelemetryRow>, dev: string, records: seq<TelemetryRecord>, i: int)
    requires 0 <= i < |records| && records[i].dblV != 0.0
    ensures RowKey(dev, records[i].key, records[i].ts) in Stored(t, dev, PointsByKey(records), PointsByKey(records).Keys)
  {
    var r := records[i];
    PointsForHas(records, r.key, i);
    var ps := PointsFor(records, r.key);
    var j :| 0 <= j < |ps| && ps[j] == ToPoint(r);
    LastNumericIsLast(ps, r.ts);
    assert r.key in KeysOf(records);
    assert Written(dev, PointsByKey(records), PointsByKey(records).Keys, RowKey(dev, r.key, r.ts));
  }

  // ---------------------------------------------------------------------
  // Fetching a plan

  /** Every data request in `rs` carries query `q`. */
  predicate AskedFor(rs: seq<Request>, q: Query) {
    forall r :: r in rs && r.DataRequest? ==> r.query == q
  }

  /** The requests of one window: at least one, every data request for that window. */
  predicate Attempted(rs: seq<Request>, q: Query) {
    |rs| > 0 && AskedFor(rs, q)
  }

  /** `attempts[i]` are the requests made for window `i` of `ws`, for these sensors of `dev`. */
  predicate Covers(attempts: seq<seq<Request>>, dev: string, sensors: seq<string>, ws: seq<TimePeriod>) {
    && |attempts| == |ws|
    && forall i :: 0 <= i < |ws| ==> Attempted(attempts[i], TelemetryQuery([dev], sensors, ws[i].from, ws[i].to))
  }

  /** Every data request in `rs` asks for telemetry of device `dev` alone. */
  predicate ForDevice(rs: seq<Request>, dev: string) {
    forall r :: r in rs && r.DataRequest? ==> r.query.TelemetryQuery? && r.query.devices == [dev]
  }

  lemma ForDeviceAppend(a: seq<Request>, b: seq<Request>, dev: string)
    requires ForDevice(a, dev) && ForDevice(b, dev)
    ensures ForDevice(a + b, dev)
  {
  }

  function Flatten(rss: seq<seq<Request>>): seq<Request> {
    if |rss| == 0 then [] else Flatten(rss[..|rss| - 1]) + rss[|rss| - 1]
  }

  lemma FlattenAppend(rss: seq<seq<Request>>, rs: seq<Request>)
    ensures Flatten(rss + [rs]) == Flatten(rss) + rs
  {
    assert (rss + [rs])[..|rss|] == rss;
  }

  /** Every request a fetch call makes for query `q` carries `q`, if it is a data request. */
  lemma RequestsCarry(calls: seq<Call>, q: Query)
    ensures AskedFor(Requests(calls, q), q)
  {
    var rs := Requests(calls, q);
    forall r | r in rs && r.DataRequest?
      ensures r.query == q
    {
      var j :| 0 <= j < |rs| && rs[j] == r;
      RequestsAt(calls, q, j);
    }
  }

  /** The store faults for the `i`-th stored response: none once the list runs out. */
  function FaultsAt(fs: seq<TxFaults<RowKey>>, i: int): TxFaults<RowKey> {
    if 0 <= i < |fs| then fs[i] else TxFaults(false, false, {}, false)
  }

  /** Where the client stands between two telemetry fetches: its session and the replies the server has left. */
  datatype Session = Session(sid: string, logins: seq<Reply<string>>, replies: seq<Reply<seq<TelemetryRecord>>>)

  /** What one `GetTelemetry` call returned. */
  type Fetched = Result<map<string, seq<TelemetryPoint>>, ApiError>

  /** `n` telemetry fetches in a row from `s`: what each one returned, and where the client stands after them. */
  function Fetches(s: Session, n: nat): (r: (seq<Fetched>, Session))
    ensures |r.0| == n
  {
    if n == 0 then ([], s)
    else
      var before := Fetches(s, n - 1);
      var run := Fetch(before.1.sid, before.1.logins, before.1.replies);
      (before.0 + [Converted(run.result)], Session(run.sid, run.logins, run.replies))
  }

  /**
   * The table after the window loop has handled the fetch results `fetched`
   * in order: a failed fetch stores nothing, and a response is stored when
   * `processAndSaveTelemetry` reports points for it.
   */
  ghost function StoreWindows(stations: map<string, StationRow>, t: map<RowKey, TelemetryRow>, dev: string,
                              fetched: seq<Fetched>, stores: seq<TxFaults<RowKey>>): map<RowKey, TelemetryRow>
  {
    if |fetched| == 0 then t
    else
      var n := |fetched| - 1;
      var before := StoreWindows(stations, t, dev, fetched[..n], stores);
      if fetched[n].Ok? && SavedCount(stations, dev, fetched[n].value, FaultsAt(stores, n)) > 0
      then Stored(before, dev, fetched[n].value, fetched[n].value.Keys)
      else before
  }

  /** The sum of the counts the window loop adds up: 0 for a failed fetch. */
  ghost function SavedTotal(stations: map<string, StationRow>, dev: string, fetched: seq<Fetched>, stores: seq<TxFaults<RowKey>>): int {
    if |fetched| == 0 then 0
    else
      var n := |fetched| - 1;
      SavedTotal(stations, dev, fetched[..n], stores)
        + (if fetched[n].Ok? then SavedCount(stations, dev, fetched[n].value, FaultsAt(stores, n)) else 0)
  }

  /** One more fetch result for the window loop. */
  lemma StoreWindowsStep(stations: map<string, StationRow>, t: map<RowKey, TelemetryRow>, dev: string,
                         fetched: seq<Fetched>, f: Fetched, stores: seq<TxFaults<RowKey>>)
    ensures var n := |fetched|;
      var before := StoreWindows(stations, t, dev, fetched, stores);
      && StoreWindows(stations, t, dev, fetched + [f], stores) ==
        (if f.Ok? && SavedCount(stations, dev, f.value, FaultsAt(stores, n)) > 0
         then Stored(before, dev, f.value, f.value.Keys) else before)
      && SavedTotal(stations, dev, fetched + [f], stores) ==
        SavedTotal(stations, dev, fetched, stores) + (if f.Ok? then SavedCount(stations, dev, f.value, FaultsAt(stores, n)) else 0)
  {
    assert (fetched + [f])[..|fetched|] == fetched;
  }

  /** Windows whose fetches all failed store nothing and add nothing to the count. */
  lemma {:induction false} FailedWindowsStoreNothing(stations: map<string, StationRow>, t: map<RowKey, TelemetryRow>, dev: string,
                                                     fetched: seq<Fetched>, stores: seq<TxFaults<RowKey>>)
    requires forall i :: 0 <= i < |fetched| ==> fetched[i].Err?
    ensures StoreWindows(stations, t, dev, fetched, stores) == t
    ensures SavedTotal(stations, dev, fetched, stores) == 0
  {
    if |fetched| > 0 {
      FailedWindowsStoreNothing(stations, t, dev, fetched[..|fetched| - 1], stores);
    }
  }

  /** The window loop changes only rows of station `dev` and loses none. */
  lemma {:induction false} StoreWindowsTouchesOnly(stations: map<string, StationRow>, t: map<RowKey, TelemetryRow>, dev: string,
                                                   fetched: seq<Fetched>, stores: seq<TxFaults<RowKey>>)
    ensures TouchesOnly(t, StoreWindows(stations, t, dev, fetched, stores), {dev})
  {
    if |fetched| > 0 {
      var n := |fetched| - 1;
      var before := StoreWindows(stations, t, dev, fetched[..n], stores);
      StoreWindowsTouchesOnly(stations, t, dev, fetched[..n], stores);
      if fetched[n].Ok? {
        StoredTouchesOnly(before, dev, fetched[n].value);
        TouchesOnlyWiden(t, before, Stored(before, dev, fetched[n].value, fetched[n].value.Keys), {dev}, {dev});
      }
    }
  }

  /**
   * One round of the window loop: fetch the window for the group's sensors
   * and, unless the fetch fails, store what came and return its count.
   */
  method FetchWindow(api: WeatherApi, db: DBManager, deviceId: string, sensors: seq<string>,
                     period: TimePeriod, faults: TxFaults<RowKey>)
    returns (recordsCount: int, ghost fetched: Fetched, ghost requests: seq<Request>)
    requires db.Valid()
    modifies api, api.server, db
    ensures db.Valid() && db.stations == old(db.stations)
    ensures TouchesOnly(old(db.telemetry), db.telemetry, {deviceId})
    ensures var start := Session(old(api.sessionId), old(api.server.pending.logins), old(api.server.pending.telemetry));
      Fetches(start, 1) == ([fetched], Session(api.sessionId, api.server.pending.logins, api.server.pending.telemetry))
    ensures fetched.Err? ==> recordsCount == 0 && db.telemetry == old(db.telemetry)
    ensures fetched.Ok? ==>
      && recordsCount == SavedCount(old(db.stations), deviceId, fetched.value, faults)
      && db.telemetry == if recordsCount > 0 then Stored(old(db.telemetry), deviceId, fetched.value, fetched.value.Keys) else old(db.telemetry)
    ensures Attempted(requests, TelemetryQuery([deviceId], sensors, period.from, period.to))
    ensures api.server.requests == old(api.server.requests) + requests
    ensures recordsCount >= 0
  {
    ghost var q := TelemetryQuery([deviceId], sensors, period.from, period.to);
    ghost var run := Fetch(api.sessionId, api.server.pending.logins, api.server.pending.telemetry);
    FetchCalls(api.sessionId, api.server.pending.logins, api.server.pending.telemetry);
    ghost var start := Session(api.sessionId, api.server.pending.logins, api.server.pending.telemetry);
    assert Fetches(start, 1) == ([Converted(run.result)], Session(run.sid, run.logins, run.replies)) by {
      var zero := Fetches(start, 0);
      assert zero == ([], start);
      assert zero.0 + [Converted(run.result)] == [Converted(run.result)];
    }
    var telemetry := api.GetTelemetry(deviceId, sensors, period.from, period.to);
    fetched := telemetry;
    RequestsCarry(run.calls, q);
    requests := Requests(run.calls, q);
    if telemetry.Err? {
      return 0, fetched, requests;
    }
    recordsCount := ProcessAndSaveTelemetry(deviceId, telemetry.value, db, faults);
  }

  /**
   * The window loop of `processDevice`: fetch each window for the group's
   * sensors, skip it when the fetch fails, otherwise store what came and
   * add its count. Every window is fetched, in order, whatever happened to
   * the ones before it.
   */
  method FetchWindows(api: WeatherApi, db: DBManager, deviceId: string, sensors: seq<string>,
                      windows: seq<TimePeriod>, stores: seq<TxFaults<RowKey>>)
    returns (total: int, ghost fetched: seq<Fetched>, ghost attempts: seq<seq<Request>>)
    requires db.Valid()
    modifies api, api.server, db
    ensures db.Valid() && db.stations == old(db.stations)
    ensures TouchesOnly(old(db.telemetry), db.telemetry, {deviceId})
    ensures var start := Session(old(api.sessionId), old(api.server.pending.logins), old(api.server.pending.telemetry));
      Fetches(start, |windows|) == (fetched, Session(api.sessionId, api.server.pending.logins, api.server.pending.telemetry))
    ensures db.telemetry == StoreWindows(old(db.stations), old(db.telemetry), deviceId, fetched, stores)
    ensures total == SavedTotal(old(db.stations), deviceId, fetched, stores)
    ensures Covers(attempts, deviceId, sensors, windows)
    ensures ForDevice(Flatten(attempts), deviceId)
    ensures api.server.requests == old(api.server.requests) + Flatten(attempts)
    ensures total >= 0
  {
    ghost var start := Session(api.sessionId, api.server.pending.logins, api.server.pending.telemetry);
    ghost var stations := db.stations;
    total := 0;
    fetched := [];
    attempts := [];
    for i := 0 to |windows|
      invariant db.Valid() && db.stations == stations
      invariant TouchesOnly(old(db.telemetry), db.telemetry, {deviceId})
      invariant Fetches(start, i) == (fetched, Session(api.sessionId, api.server.pending.logins, api.server.pending.telemetry))
      invariant db.telemetry == StoreWindows(stations, old(db.telemetry), deviceId, fetched, stores)
      invariant total == SavedTotal(stations, deviceId, fetched, stores)
      invariant Covers(attempts, deviceId, sensors, windows[..i])
      invariant ForDevice(Flatten(attempts), deviceId)
      invariant api.server.requests == old(api.server.requests) + Flatten(attempts)
      invariant total >= 0
    {
      var recordsCount;
      ghost var f, requests;
      ghost var table := db.telemetry;
      recordsCount, f, requests := FetchWindow(api, db, deviceId, sensors, windows[i], FaultsAt(stores, i));
      StoreWindowsStep(stations, old(db.telemetry), deviceId, fetched, f, stores);
      TouchesOnlyWiden(old(db.telemetry), table, db.telemetry, {deviceId}, {deviceId});
      FlattenAppend(attempts, requests);
      fetched := fetched + [f];
      attempts := attempts + [requests];
      total := total + recordsCount;
    }
    assert windows[..|windows|] == windows;
  }

  // ---------------------------------------------------------------------
  // One device, all devices

  /** What one run of `processDevice` meets: its clock reading, the sensors whose lookup fails, and the store faults per window of each group. */
  datatype DeviceEnv = DeviceEnv(
    now: int,
    lookupFails: set<string>,
    newStores: seq<TxFaults<RowKey>>,
    existingStores: seq<TxFaults<RowKey>>)

  /** What one run of `processDevice` worked out and got back: the lookups, the plan, and each window's fetch result per group. */
  datatype DeviceRun = DeviceRun(lookups: seq<Lookup>, plan: Plan, newFetched: seq<Fetched>, existingFetched: seq<Fetched>)

  /**
   * `run` is what `processDevice` does for station `dev` when it finds table
   * `before` and client state `s0`: the lookups answer the watermark queries
   * on `before`, the plan follows from them, the new group's windows are
   * fetched first and the existing group's next, and the table becomes
   * `after` by storing each successful response in that order.
   */
  ghost predicate DeviceStep(stations: map<string, StationRow>, before: map<RowKey, TelemetryRow>, after: map<RowKey, TelemetryRow>,
                             s0: Session, s1: Session, dev: string, env: DeviceEnv, run: DeviceRun)
  {
    && |run.lookups| == |SensorKeys|
    && (forall i :: 0 <= i < |SensorKeys| ==> LooksUp(before, dev, SensorKeys[i], env.lookupFails, run.lookups[i]))
    && run.plan == PlanOf(env.now, run.lookups)
    && Fetches(s0, |run.plan.newWindows|) == (run.newFetched, Fetches(s0, |run.plan.newWindows|).1)
    && Fetches(Fetches(s0, |run.plan.newWindows|).1, |run.plan.existingWindows|) == (run.existingFetched, s1)
    && after == StoreWindows(stations, StoreWindows(stations, before, dev, run.newFetched, env.newStores),
                             dev, run.existingFetched, env.existingStores)
  }

  /**
   * `processDevice`: plan from the watermarks, then fetch and store the new
   * group's windows and the existing group's windows, skipping any window
   * whose fetch fails. Only this station's rows change.
   */
  method ProcessDevice(api: WeatherApi, db: DBManager, device: Device, env: DeviceEnv)
    returns (totalRecordsCount: int, ghost run: DeviceRun,
             ghost newAttempts: seq<seq<Request>>, ghost existingAttempts: seq<seq<Request>>)
    requires db.Valid()
    modifies api, api.server, db
    ensures db.Valid() && db.stations == old(db.stations)
    ensures TouchesOnly(old(db.telemetry), db.telemetry, {device.id})
    ensures DeviceStep(old(db.stations), old(db.telemetry), db.telemetry,
                       Session(old(api.sessionId), old(api.server.pending.logins), old(api.server.pending.telemetry)),
                       Session(api.sessionId, api.server.pending.logins, api.server.pending.telemetry),
                       device.id, env, run)
    ensures totalRecordsCount == SavedTotal(old(db.stations), device.id, run.newFetched, env.newStores)
                                 + SavedTotal(old(db.stations), device.id, run.existingFetched, env.existingStores)
    ensures Covers(newAttempts, device.id, run.plan.newSensors, run.plan.newWindows)
    ensures Covers(existingAttempts, device.id, run.plan.existingSensors, run.plan.existingWindows)
    ensures ForDevice(Flatten(newAttempts) + Flatten(existingAttempts), device.id)
    ensures api.server.requests == old(api.server.requests) + (Flatten(newAttempts) + Flatten(existingAttempts))
    ensures totalRecordsCount >= 0
  {
    ghost var s0 := Session(api.sessionId, api.server.pending.logins, api.server.pending.telemetry);
    ghost var stations, t0 := db.stations, db.telemetry;
    var devicePlan;
    ghost var lookups;
    devicePlan, lookups := PlanDevice(db, device.id, env.now, env.lookupFails);
    totalRecordsCount := 0;
    ghost var newFetched: seq<Fetched>, existingFetched: seq<Fetched> := [], [];
    newAttempts, existingAttempts := [], [];
    if |devicePlan.newSensors| > 0 {
      var recordsCount;
      recordsCount, newFetched, newAttempts := FetchWindows(api, db, device.id, devicePlan.newSensors, devicePlan.newWindows, env.newStores);
      totalRecordsCount := totalRecordsCount + recordsCount;
    } else {
      assert devicePlan.newWindows == [];
    }
    ghost var sent := api.server.requests;
    ghost var t1 := db.telemetry;
    ghost var s1 := Session(api.sessionId, api.server.pending.logins, api.server.pending.telemetry);
    assert Fetches(s0, |devicePlan.newWindows|) == (newFetched, s1);
    assert t1 == StoreWindows(stations, t0, device.id, newFetched, env.newStores);
    if |devicePlan.existingSensors| > 0 {
      var recordsCount;
      recordsCount, existingFetched, existingAttempts := FetchWindows(api, db, device.id, devicePlan.existingSensors, devicePlan.existingWindows, env.existingStores);
      totalRecordsCount := totalRecordsCount + recordsCount;
      TouchesOnlyWiden(t0, t1, db.telemetry, {device.id}, {device.id});
    } else {
      assert devicePlan.existingWindows == [];
    }
    run := DeviceRun(lookups, devicePlan, newFetched, existingFetched);
    DeviceStepIntro(stations, t0, t1, db.telemetry, s0, s1, Session(api.sessionId, api.server.pending.logins, api.server.pending.telemetry),
                    device.id, env, run);
    AppendAssociative(old(api.server.requests), Flatten(newAttempts), Flatten(existingAttempts));
    ForDeviceAppend(Flatten(newAttempts), Flatten(existingAttempts), device.id);
  }

  /** The steps of one device's run, assembled. */
  lemma DeviceStepIntro(stations: map<string, StationRow>, before: map<RowKey, TelemetryRow>, mid: map<RowKey, TelemetryRow>,
                        after: map<RowKey, TelemetryRow>, s0: Session, s1: Session, s2: Session, dev: string, env: DeviceEnv, run: DeviceRun)
    requires |run.lookups| == |SensorKeys|
    requires forall i :: 0 <= i < |SensorKeys| ==> LooksUp(before, dev, SensorKeys[i], env.lookupFails, run.lookups[i])
    requires run.plan == PlanOf(env.now, run.lookups)
    requires Fetches(s0, |run.plan.newWindows|) == (run.newFetched, s1)
    requires Fetches(s1, |run.plan.existingWindows|) == (run.existingFetched, s2)
    requires mid == StoreWindows(stations, before, dev, run.newFetched, env.newStores)
    requires after == StoreWindows(stations, mid, dev, run.existingFetched, env.existingStores)
    ensures DeviceStep(stations, before, after, s0, s2, dev, env, run)
  {
  }

  /**
   * `collectData`: list the devices (giving up when that fails), merge them
   * into Stations (carrying on when that fails), then process every device
   * in order, whatever happened to the ones before it. `env(i)` is what the
   * `i`-th device's run meets.
   */
  method CollectData(api: WeatherApi, db: DBManager, stationFaults: TxFaults<string>, env: int -> DeviceEnv)
    returns (ghost devices: Result<seq<Device>, ApiError>, ghost perDevice: seq<seq<Request>>,
             ghost runs: seq<DeviceRun>, ghost sessions: seq<Session>, ghost tables: seq<map<RowKey, TelemetryRow>>)
    requires db.Valid()
    modifies api, api.server, db
    ensures var listing := Fetch(old(api.sessionId), old(api.server.pending.logins), old(api.server.pending.devices));
      && devices == listing.result
      && api.server.requests == old(api.server.requests) + Requests(listing.calls, DevicesQuery) + Flatten(perDevice)
    ensures db.Valid()
    ensures devices.Err? ==> db.stations == old(db.stations) && db.telemetry == old(db.telemetry) && perDevice == []
    ensures devices.Ok? ==> db.stations == if StationsOutcome(devices.value, stationFaults).None? then Merge(old(db.stations), devices.value) else old(db.stations)
    ensures devices.Ok? ==>
      && |runs| == |devices.value|
      && DevicesInTurn(db.stations, devices.value, env, runs, sessions, tables)
      && (var listing := Fetch(old(api.sessionId), old(api.server.pending.logins), old(api.server.pending.devices));
          sessions[0] == Session(listing.sid, listing.logins, old(api.server.pending.telemetry)))
      && tables[0] == old(db.telemetry)
      && sessions[|runs|] == Session(api.sessionId, api.server.pending.logins, api.server.pending.telemetry)
      && tables[|runs|] == db.telemetry
    ensures devices.Ok? ==> TouchesOnly(old(db.telemetry), db.telemetry, IdsOf(devices.value))
    ensures devices.Ok? ==> |perDevice| == |devices.value| && forall i :: 0 <= i < |perDevice| ==> ForDevice(perDevice[i], devices.value[i].id)
  {
    perDevice, runs, sessions, tables := [], [], [], [];
    var listing := api.GetDevices();
    devices := listing;
    if listing.Err? {
      return;
    }
    var list := listing.value;
    var err := db.StoreStations(list, stationFaults);
    perDevice, runs, sessions, tables := ProcessDevices(api, db, list, env);
  }

  /** The request log of each device processed so far asks only for that device's telemetry. */
  predicate AllForDevice(perDevice: seq<seq<Request>>, list: seq<Device>) {
    && |perDevice| <= |list|
    && forall j :: 0 <= j < |perDevice| ==> ForDevice(perDevice[j], list[j].id)
  }

  lemma AllForDeviceAppend(perDevice: seq<seq<Request>>, list: seq<Device>, rs: seq<Request>)
    requires AllForDevice(perDevice, list) && |perDevice| < |list|
    requires ForDevice(rs, list[|perDevice|].id)
    ensures AllForDevice(perDevice + [rs], list)
  {
    var next := perDevice + [rs];
    forall j | 0 <= j < |next|
      ensures ForDevice(next[j], list[j].id)
    {
      if j < |perDevice| { assert next[j] == perDevice[j]; }
    }
  }

  /**
   * The first `|runs|` devices of `list` were processed in turn: device `i`
   * found table `tables[i]` and client state `sessions[i]`, and left
   * `tables[i + 1]` and `sessions[i + 1]` to the next one.
   */
  ghost predicate DevicesInTurn(stations: map<string, StationRow>, list: seq<Device>, env: int -> DeviceEnv,
                                runs: seq<DeviceRun>, sessions: seq<Session>, tables: seq<map<RowKey, TelemetryRow>>)
  {
    && |runs| <= |list| && |sessions| == |runs| + 1 && |tables| == |runs| + 1
    && forall i :: 0 <= i < |runs| ==>
         DeviceStep(stations, tables[i], tables[i + 1], sessions[i], sessions[i + 1], list[i].id, env(i), runs[i])
  }

  /** One more device processed after the ones before it. */
  lemma DevicesInTurnAppend(stations: map<string, StationRow>, list: seq<Device>, env: int -> DeviceEnv,
                            runs: seq<DeviceRun>, sessions: seq<Session>, tables: seq<map<RowKey, TelemetryRow>>,
                            run: DeviceRun, s: Session, t: map<RowKey, TelemetryRow>)
    requires DevicesInTurn(stations, list, env, runs, sessions, tables) && |runs| < |list|
    requires DeviceStep(stations, tables[|runs|], t, sessions[|runs|], s, list[|runs|].id, env(|runs|), run)
    ensures DevicesInTurn(stations, list, env, runs + [run], sessions + [s], tables + [t])
  {
    var runs', sessions', tables' := runs + [run], sessions + [s], tables + [t];
    forall i | 0 <= i < |runs'|
      ensures DeviceStep(stations, tables'[i], tables'[i + 1], sessions'[i], sessions'[i + 1], list[i].id, env(i), runs'[i])
    {
      if i < |runs| {
        assert runs'[i] == runs[i] && tables'[i] == tables[i] && sessions'[i] == sessions[i];
        assert tables'[i + 1] == tables[i + 1] && sessions'[i + 1] == sessions[i + 1];
      }
    }
  }

  /** The device loop of `collectData`: every device is processed, in order. */
  method ProcessDevices(api: WeatherApi, db: DBManager, list: seq<Device>, env: int -> DeviceEnv)
    returns (ghost perDevice: seq<seq<Request>>, ghost runs: seq<DeviceRun>,
             ghost sessions: seq<Session>, ghost tables: seq<map<RowKey, TelemetryRow>>)
    requires db.Valid()
    modifies api, api.server, db
    ensures db.Valid() && db.stations == old(db.stations)
    ensures |runs| == |list| && DevicesInTurn(db.stations, list, env, runs, sessions, tables)
    ensures sessions[0] == Session(old(api.sessionId), old(api.server.pending.logins), old(api.server.pending.telemetry))
    ensures tables[0] == old(db.telemetry)
    ensures sessions[|list|] == Session(api.sessionId, api.server.pending.logins, api.server.pending.telemetry)
    ensures tables[|list|] == db.telemetry
    ensures TouchesOnly(old(db.telemetry), db.telemetry, IdsOf(list))
    ensures |perDevice| == |list| && forall i :: 0 <= i < |list| ==> ForDevice(perDevice[i], list[i].id)
    ensures api.server.requests == old(api.server.requests) + Flatten(perDevice)
  {
    perDevice, runs := [], [];
    sessions := [Session(api.sessionId, api.server.pending.logins, api.server.pending.telemetry)];
    tables := [db.telemetry];
    for i := 0 to |list|
      invariant db.Valid() && db.stations == old(db.stations)
      invariant |runs| == i && DevicesInTurn(db.stations, list, env, runs, sessions, tables)
      invariant sessions[0] == Session(old(api.sessionId), old(api.server.pending.logins), old(api.server.pending.telemetry))
      invariant tables[0] == old(db.telemetry)
      invariant sessions[i] == Session(api.sessionId, api.server.pending.logins, api.server.pending.telemetry)
      invariant tables[i] == db.telemetry
      invariant TouchesOnly(old(db.telemetry), db.telemetry, IdsOf(list))
      invariant |perDevice| == i && AllForDevice(perDevice, list)
      invariant api.server.requests == old(api.server.requests) + Flatten(perDevice)
    {
      var device := list[i];
      var count;
      ghost var run, newAttempts, existingAttempts;
      ghost var before := api.server.requests;
      ghost var tableBefore := db.telemetry;
      count, run, newAttempts, existingAttempts := ProcessDevice(api, db, device, env(i));
      ghost var requests := Flatten(newAttempts) + Flatten(existingAttempts);
      assert api.server.requests == before + requests;
      calc {
        old(api.server.requests) + Flatten(perDevice + [requests]);
        { FlattenAppend(perDevice, requests); }
        old(api.server.requests) + (Flatten(perDevice) + requests);
        { AppendAssociative(old(api.server.requests), Flatten(perDevice), requests); }
        before + requests;
      }
      assert list[i].id in IdsOf(list);
      TouchesOnlyWiden(old(db.telemetry), tableBefore, db.telemetry, {device.id}, IdsOf(list));
      AllForDeviceAppend(perDevice, list, requests);
      ghost var s := Session(api.sessionId, api.server.pending.logins, api.server.pending.telemetry);
      DevicesInTurnAppend(db.stations, list, env, runs, sessions, tables, run, s, db.telemetry);
      perDevice := perDevice + [requests];
      runs, sessions, tables := runs + [run], sessions + [s], tables + [db.telemetry];
    }
  }
}
