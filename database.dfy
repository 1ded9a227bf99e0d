/**
 * The storage side of the service (pkg/database/database.go): the Stations
 * and Telemetry tables, the transactional upsert of telemetry, the MERGE of
 * stations, the watermark query and the station listing.
 *
 * Each table is a map from its key to its other columns, so the UNIQUE
 * constraint on (StationID, SensorKey, Timestamp) and the primary key of
 * Stations hold by construction; the foreign key from Telemetry to Stations
 * is the invariant `Valid`. What the database server may refuse (beginning
 * or committing a transaction, preparing a statement, executing it for a
 * given row, running a query or scanning a row) is an input of each call.
 */
module Database {
  import opened Wrappers
  import opened Calendar
  import opened Api

  /** A row of Stations, without its key ID and without LastUpdate (a clock reading). */
  datatype StationRow = StationRow(name: string, labelText: string, latitude: real, longitude: real)

  /** The unique key of a Telemetry row. */
  datatype RowKey = RowKey(station: string, sensor: string, ts: int)

  /** The other columns of a Telemetry row: DateValue in Unix seconds, and Value. */
  datatype TelemetryRow = TelemetryRow(dateValue: int, value: real)

  datatype DbError = BeginFailed | PrepareFailed | ExecFailed | CommitFailed | QueryFailed | ScanFailed | IterationFailed

  /** What the server refuses during one write transaction; `failing` names the rows whose statement fails. */
  datatype TxFaults<K> = TxFaults(begin: bool, prepare: bool, failing: set<K>, commit: bool)

  /** What the server refuses during one read: the query, the scan of some rows, or the end of the iteration. */
  datatype ReadFaults = ReadFaults(query: bool, failingScans: set<string>, iteration: bool)

  /** The foreign key FK_Telemetry_Stations: every telemetry row names a known station. */
  predicate ForeignKeysHold(stations: map<string, StationRow>, telemetry: map<RowKey, TelemetryRow>) {
    forall k :: k in telemetry ==> k.station in stations
  }

  // ---------------------------------------------------------------------
  // Telemetry: which points are written, and what a write does

  /**
   * The float a point's value converts to, if any. A decoded JSON value is
   * a float64 exactly when it is a number, so the type switch accepts
   * numbers and skips everything else.
   */
  function Numeric(v: JsonValue): Option<real>
  {
    if v.JNumber? then Some(v.x) else None
  }

  /** Point `i` is the last numeric point at `ts`. */
  predicate LastAt(ps: seq<TelemetryPoint>, ts: int, i: int) {
    && 0 <= i < |ps| && ps[i].ts == ts && Numeric(ps[i].value).Some?
    && forall j :: i < j < |ps| && ps[j].ts == ts ==> Numeric(ps[j].value).None?
  }

  /** The value the last numeric point at `ts` carries: the one whose statement runs last. */
  function LastNumeric(ps: seq<TelemetryPoint>, ts: int): Option<real>
  {
    if |ps| == 0 then None
    else
      var p := ps[|ps| - 1];
      if p.ts == ts && Numeric(p.value).Some? then Numeric(p.value)
      else LastNumeric(ps[..|ps| - 1], ts)
  }

  /** `LastNumeric` finds a value exactly when some numeric point has that timestamp. */
  lemma {:induction false} LastNumericFinds(ps: seq<TelemetryPoint>, ts: int)
    ensures LastNumeric(ps, ts).Some? <==> exists i :: 0 <= i < |ps| && ps[i].ts == ts && Numeric(ps[i].value).Some?
  {
    if |ps| > 0 {
      var init := ps[..|ps| - 1];
      LastNumericFinds(init, ts);
      if LastNumeric(init, ts).Some? {
        var i :| 0 <= i < |init| && init[i].ts == ts && Numeric(init[i].value).Some?;
        assert ps[i] == init[i];
      }
      if exists i :: 0 <= i < |ps| && ps[i].ts == ts && Numeric(ps[i].value).Some? {
        var i :| 0 <= i < |ps| && ps[i].ts == ts && Numeric(ps[i].value).Some?;
        if i < |ps| - 1 { assert init[i] == ps[i]; }
      }
    }
  }

  /** The value `LastNumeric` finds is the one of the last numeric point at that timestamp. */
  lemma {:induction false} LastNumericIsLastAt(ps: seq<TelemetryPoint>, ts: int)
    ensures LastNumeric(ps, ts).Some? ==> exists i :: LastAt(ps, ts, i) && Numeric(ps[i].value) == LastNumeric(ps, ts)
  {
    if |ps| > 0 {
      var init := ps[..|ps| - 1];
      var p := ps[|ps| - 1];
      if p.ts == ts && Numeric(p.value).Some? {
        assert LastAt(ps, ts, |ps| - 1);
      } else if LastNumeric(init, ts).Some? {
        LastNumericIsLastAt(init, ts);
        var i :| LastAt(init, ts, i) && Numeric(init[i].value) == LastNumeric(init, ts);
        assert LastAt(ps, ts, i);
      }
    }
  }

  /** `LastNumeric` finds a value exactly when some numeric point has that timestamp, and it is the last one's. */
  lemma LastNumericIsLast(ps: seq<TelemetryPoint>, ts: int)
    ensures LastNumeric(ps, ts).Some? <==> exists i :: 0 <= i < |ps| && ps[i].ts == ts && Numeric(ps[i].value).Some?
    ensures LastNumeric(ps, ts).Some? ==> exists i :: LastAt(ps, ts, i) && Numeric(ps[i].value) == LastNumeric(ps, ts)
  {
    LastNumericFinds(ps, ts);
    LastNumericIsLastAt(ps, ts);
  }

  /** Whether the sensors in `done` write row `k` for station `dev`. */
  predicate Written(dev: string, data: map<string, seq<TelemetryPoint>>, done: set<string>, k: RowKey) {
    k.station == dev && k.sensor in done && k.sensor in data && LastNumeric(data[k.sensor], k.ts).Some?
  }

  /** The rows the sensors in `done` write: one per numeric point. */
  function Writes(dev: string, data: map<string, seq<TelemetryPoint>>, done: set<string>): (ws: set<RowKey>)
    ensures forall k :: k in ws <==> Written(dev, data, done, k)
  {
    var ws := set s, i | s in done && s in data && 0 <= i < |data[s]| && Numeric(data[s][i].value).Some?
      :: RowKey(dev, s, data[s][i].ts);
    assert forall k :: Written(dev, data, done, k) ==> k in ws by {
      forall k | Written(dev, data, done, k)
        ensures k in ws
      {
        var ps := data[k.sensor];
        LastNumericIsLast(ps, k.ts);
        var i :| 0 <= i < |ps| && ps[i].ts == k.ts && Numeric(ps[i].value).Some?;
        assert k == RowKey(dev, k.sensor, ps[i].ts);
      }
    }
    assert forall k :: k in ws ==> Written(dev, data, done, k) by {
      forall k | k in ws
        ensures Written(dev, data, done, k)
      {
        var s, i :| s in done && s in data && 0 <= i < |data[s]| && Numeric(data[s][i].value).Some?
          && k == RowKey(dev, s, data[s][i].ts);
        LastNumericIsLast(data[s], k.ts);
      }
    }
    ws
  }

  /** The row an upsert of `v` at `k` leaves: an update keeps DateValue, an insert derives it from the timestamp. */
  function Updated(t: map<RowKey, TelemetryRow>, k: RowKey, v: real): TelemetryRow {
    if k in t then t[k].(value := v) else TelemetryRow(UnixSeconds(k.ts), v)
  }

  /** The IF NOT EXISTS … INSERT … ELSE UPDATE statement for one point. */
  function Upsert(t: map<RowKey, TelemetryRow>, k: RowKey, v: real): (u: map<RowKey, TelemetryRow>)
    ensures u.Keys == t.Keys + {k}
    ensures k !in t ==> u[k] == TelemetryRow(UnixSeconds(k.ts), v)
    ensures k in t ==> u[k].dateValue == t[k].dateValue && u[k].value == v
    ensures forall j :: j in t && j != k ==> u[j] == t[j]
  {
    t[k := Updated(t, k, v)]
  }

  /** The points of one sensor, executed in order as the inner loop does, non-numeric ones skipped. */
  function StorePoints(t: map<RowKey, TelemetryRow>, dev: string, s: string, ps: seq<TelemetryPoint>): map<RowKey, TelemetryRow>
  {
    if |ps| == 0 then t
    else
      var before := StorePoints(t, dev, s, ps[..|ps| - 1]);
      var p := ps[|ps| - 1];
      match Numeric(p.value)
      case None => before
      case Some(v) => Upsert(before, RowKey(dev, s, p.ts), v)
  }

  /** The value each row written by the sensors in `done` ends up with. */
  function Assigned(dev: string, data: map<string, seq<TelemetryPoint>>, done: set<string>): (m: map<RowKey, real>)
    ensures m.Keys == Writes(dev, data, done)
  {
    map k | k in Writes(dev, data, done) :: LastNumeric(data[k.sensor], k.ts).value
  }

  /** The table after upserting each row of `m` once, in any order. */
  function Apply(t: map<RowKey, TelemetryRow>, m: map<RowKey, real>): map<RowKey, TelemetryRow> {
    map k | k in t.Keys + m.Keys :: if k in m then Updated(t, k, m[k]) else t[k]
  }

  /**
   * The table after the sensors in `done` are stored, whatever order they
   * are taken in: each written row holds the value of the last numeric
   * point at its timestamp.
   */
  function Stored(t: map<RowKey, TelemetryRow>, dev: string, data: map<string, seq<TelemetryPoint>>, done: set<string>): map<RowKey, TelemetryRow>
  {
    Apply(t, Assigned(dev, data, done))
  }

  /** One more point of a sensor, read through `LastNumeric`. */
  lemma LastNumericStep(ps: seq<TelemetryPoint>, p: TelemetryPoint, ts: int)
    ensures LastNumeric(ps + [p], ts)
      == if p.ts == ts && Numeric(p.value).Some? then Numeric(p.value) else LastNumeric(ps, ts)
  {
    assert (ps + [p])[..|ps + [p]| - 1] == ps;
  }

  /** Before any sensor is stored the table is as it was. */
  lemma NothingStored(t: map<RowKey, TelemetryRow>, dev: string, data: map<string, seq<TelemetryPoint>>)
    ensures Stored(t, dev, data, {}) == t
    ensures Writes(dev, data, {}) == {}
  {
    assert Assigned(dev, data, {}) == map[];
  }

  /** A non-numeric point leaves the table as it is: the `continue` of the inner loop. */
  lemma StorePointsSkip(t: map<RowKey, TelemetryRow>, dev: string, s: string, ps: seq<TelemetryPoint>, j: int)
    requires 0 <= j < |ps| && Numeric(ps[j].value).None?
    ensures StorePoints(t, dev, s, ps[..j + 1]) == StorePoints(t, dev, s, ps[..j])
  {
    assert ps[..j + 1][..j] == ps[..j];
  }

  /** A numeric point is one more upsert: the step the inner loop of `StoreTelemetry` takes. */
  lemma StorePointsUpsert(t: map<RowKey, TelemetryRow>, dev: string, s: string, ps: seq<TelemetryPoint>, j: int, v: real)
    requires 0 <= j < |ps| && Numeric(ps[j].value) == Some(v)
    ensures StorePoints(t, dev, s, ps[..j + 1]) == Upsert(StorePoints(t, dev, s, ps[..j]), RowKey(dev, s, ps[j].ts), v)
  {
    assert ps[..j + 1][..j] == ps[..j];
  }

  /** A non-numeric point appended to a sensor's points assigns nothing. */
  lemma PointSkipped(dev: string, s: string, init: seq<TelemetryPoint>, p: TelemetryPoint)
    requires Numeric(p.value).None?
    ensures Assigned(dev, map[s := init + [p]], {s}) == Assigned(dev, map[s := init], {s})
  {
    var after := Assigned(dev, map[s := init + [p]], {s});
    var before := Assigned(dev, map[s := init], {s});
    forall k
      ensures k in after <==> k in before
      ensures k in after ==> after[k] == before[k]
    {
      LastNumericStep(init, p, k.ts);
    }
  }

  /** A numeric point appended to a sensor's points assigns its value to its row. */
  lemma PointAssigned(dev: string, s: string, init: seq<TelemetryPoint>, p: TelemetryPoint, v: real)
    requires Numeric(p.value) == Some(v)
    ensures Assigned(dev, map[s := init + [p]], {s}) == Assigned(dev, map[s := init], {s})[RowKey(dev, s, p.ts) := v]
  {
    var after := Assigned(dev, map[s := init + [p]], {s});
    var up := Assigned(dev, map[s := init], {s})[RowKey(dev, s, p.ts) := v];
    forall k
      ensures k in after <==> k in up
      ensures k in after ==> after[k] == up[k]
    {
      LastNumericStep(init, p, k.ts);
    }
  }

  /** Upserting one more row after the others is applying it with them. */
  lemma ApplyUpsert(t: map<RowKey, TelemetryRow>, m: map<RowKey, real>, k: RowKey, v: real)
    ensures Apply(t, m[k := v]) == Upsert(Apply(t, m), k, v)
  {
    var lhs := Apply(t, m[k := v]);
    var rhs := Upsert(Apply(t, m), k, v);
    assert lhs.Keys == rhs.Keys;
    forall j | j in lhs
      ensures lhs[j] == rhs[j]
    {
    }
  }

  /** A sensor without points stores nothing. */
  lemma NoPointsStored(t: map<RowKey, TelemetryRow>, dev: string, s: string)
    ensures Stored(t, dev, map[s := []], {s}) == t
  {
    assert Assigned(dev, map[s := []], {s}) == map[];
  }

  /** `Stored` for one sensor, one point at a time: the step the inner loop takes. */
  lemma PointStored(t: map<RowKey, TelemetryRow>, dev: string, s: string, init: seq<TelemetryPoint>, p: TelemetryPoint)
    ensures Stored(t, dev, map[s := init + [p]], {s})
      == match Numeric(p.value)
         case None => Stored(t, dev, map[s := init], {s})
         case Some(v) => Upsert(Stored(t, dev, map[s := init], {s}), RowKey(dev, s, p.ts), v)
  {
    match Numeric(p.value)
    case None => PointSkipped(dev, s, init, p);
    case Some(v) =>
      PointAssigned(dev, s, init, p, v);
      ApplyUpsert(t, Assigned(dev, map[s := init], {s}), RowKey(dev, s, p.ts), v);
  }

  /** Executing one sensor's points in order leaves the table `Stored` describes for that sensor alone. */
  lemma {:induction false} StorePointsIsStored(t: map<RowKey, TelemetryRow>, dev: string, s: string, ps: seq<TelemetryPoint>)
    ensures StorePoints(t, dev, s, ps) == Stored(t, dev, map[s := ps], {s})
    decreases |ps|
  {
    if |ps| == 0 {
      NoPointsStored(t, dev, s);
    } else {
      var init := ps[..|ps| - 1];
      var p := ps[|ps| - 1];
      StorePointsIsStored(t, dev, s, init);
      assert ps == init + [p];
      PointStored(t, dev, s, init, p);
    }
  }

  /** Adding a sensor to `done` adds its own assignments, on rows no other sensor writes. */
  lemma SensorAssigned(dev: string, data: map<string, seq<TelemetryPoint>>, done: set<string>, s: string)
    requires s in data && s !in done
    ensures Assigned(dev, data, done).Keys !! Assigned(dev, map[s := data[s]], {s}).Keys
    ensures Assigned(dev, data, done + {s}) == Assigned(dev, data, done) + Assigned(dev, map[s := data[s]], {s})
  {
    var one := map[s := data[s]];
    forall k
      ensures Written(dev, data, done + {s}, k) <==> Written(dev, data, done, k) || Written(dev, one, {s}, k)
      ensures Written(dev, one, {s}, k) ==> k.sensor == s && one[k.sensor] == data[k.sensor]
      ensures !(Written(dev, data, done, k) && Written(dev, one, {s}, k))
    {
    }
    var whole := Assigned(dev, data, done + {s});
    var sum := Assigned(dev, data, done) + Assigned(dev, one, {s});
    forall k
      ensures k in whole <==> k in sum
      ensures k in whole ==> whole[k] == sum[k]
    {
    }
    SameEntries(whole, sum);
  }

  /** Two maps with the same keys and the same value at each key are equal. */
  lemma SameEntries<K, V>(a: map<K, V>, b: map<K, V>)
    requires forall k :: k in a <==> k in b
    requires forall k :: k in a ==> a[k] == b[k]
    ensures a == b
  {
  }

  /** Applying two assignments on disjoint rows one after the other is applying them together. */
  lemma ApplyTwice(t: map<RowKey, TelemetryRow>, m1: map<RowKey, real>, m2: map<RowKey, real>)
    requires m1.Keys !! m2.Keys
    ensures Apply(Apply(t, m1), m2) == Apply(t, m1 + m2)
  {
    var lhs := Apply(Apply(t, m1), m2);
    var rhs := Apply(t, m1 + m2);
    assert lhs.Keys == rhs.Keys;
  }

  /** Storing one more sensor after those in `done`: the step the outer loop takes. */
  lemma SensorStored(t: map<RowKey, TelemetryRow>, dev: string, data: map<string, seq<TelemetryPoint>>, done: set<string>, s: string)
    requires s in data && s !in done
    ensures StorePoints(Stored(t, dev, data, done), dev, s, data[s]) == Stored(t, dev, data, done + {s})
  {
    StorePointsIsStored(Stored(t, dev, data, done), dev, s, data[s]);
    SensorAssigned(dev, data, done, s);
    ApplyTwice(t, Assigned(dev, data, done), Assigned(dev, map[s := data[s]], {s}));
  }

  /** The same data with the points the type switch skips removed. */
  function NumericOnly(data: map<string, seq<TelemetryPoint>>): map<string, seq<TelemetryPoint>> {
    map s | s in data :: Filter(data[s])
  }

  function Filter(ps: seq<TelemetryPoint>): (qs: seq<TelemetryPoint>)
    ensures forall q :: q in qs ==> Numeric(q.value).Some?
  {
    if |ps| == 0 then []
    else
      var p := ps[|ps| - 1];
      Filter(ps[..|ps| - 1]) + (if Numeric(p.value).Some? then [p] else [])
  }
  /** Storing the same data again changes nothing. */
  lemma StoredIdempotent(t: map<RowKey, TelemetryRow>, dev: string, data: map<string, seq<TelemetryPoint>>, done: set<string>)
    ensures Stored(Stored(t, dev, data, done), dev, data, done) == Stored(t, dev, data, done)
  {
    ApplyIdempotent(t, Assigned(dev, data, done));
  }

  /** Upserting the same rows with the same values a second time changes nothing. */
  lemma ApplyIdempotent(t: map<RowKey, TelemetryRow>, m: map<RowKey, real>)
    ensures Apply(Apply(t, m), m) == Apply(t, m)
  {
    var once := Apply(t, m);
    var twice := Apply(once, m);
    assert twice.Keys == once.Keys;
    forall k | k in twice
      ensures twice[k] == once[k]
    {
    }
  }

  /** Only rows of station `dev` change: the others keep their presence and their columns. */
  lemma StoredFrame(t: map<RowKey, TelemetryRow>, dev: string, data: map<string, seq<TelemetryPoint>>, done: set<string>, k: RowKey)
    requires k.station != dev
    ensures k in Stored(t, dev, data, done) <==> k in t
    ensures k in t ==> Stored(t, dev, data, done)[k] == t[k]
  {
  }

  /** Every row of the old table stays, and a new row appears exactly for each numeric point's key. */
  lemma StoredKeys(t: map<RowKey, TelemetryRow>, dev: string, data: map<string, seq<TelemetryPoint>>, done: set<string>)
    ensures Stored(t, dev, data, done).Keys == t.Keys + Writes(dev, data, done)
  {
  }

  /** Writing rows for a known station, or none at all, keeps the foreign key. */
  lemma StoredKeepsForeignKeys(stations: map<string, StationRow>, t: map<RowKey, TelemetryRow>, dev: string, data: map<string, seq<TelemetryPoint>>, done: set<string>)
    requires ForeignKeysHold(stations, t)
    requires Writes(dev, data, done) == {} || dev in stations
    ensures ForeignKeysHold(stations, Stored(t, dev, data, done))
  {
    StoredKeys(t, dev, data, done);
  }

  /** Dropping the non-numeric points keeps the last numeric value at every timestamp. */
  lemma {:induction false} FilterKeepsLast(ps: seq<TelemetryPoint>, ts: int)
    ensures LastNumeric(Filter(ps), ts) == LastNumeric(ps, ts)
    decreases |ps|
  {
    if |ps| > 0 {
      var init := ps[..|ps| - 1];
      var p := ps[|ps| - 1];
      assert ps == init + [p];
      FilterKeepsLast(init, ts);
      LastNumericStep(init, p, ts);
      if Numeric(p.value).Some? {
        assert Filter(ps) == Filter(init) + [p];
        LastNumericStep(Filter(init), p, ts);
      } else {
        assert Filter(ps) == Filter(init);
      }
    }
  }

  /** The points the type switch skips have no effect: storing only the numeric ones gives the same table. */
  lemma NumericOnlyStored(t: map<RowKey, TelemetryRow>, dev: string, data: map<string, seq<TelemetryPoint>>, done: set<string>)
    ensures Stored(t, dev, NumericOnly(data), done) == Stored(t, dev, data, done)
  {
    forall s, ts | s in data
      ensures LastNumeric(NumericOnly(data)[s], ts) == LastNumeric(data[s], ts)
    {
      FilterKeepsLast(data[s], ts);
    }
    SameLastSameAssigned(dev, NumericOnly(data), data, done);
  }

  /** `Assigned` sees the data only through the last numeric value of each sensor at each timestamp. */
  lemma SameLastSameAssigned(dev: string, d1: map<string, seq<TelemetryPoint>>, d2: map<string, seq<TelemetryPoint>>, done: set<string>)
    requires d1.Keys == d2.Keys
    requires forall s, ts :: s in d1 ==> LastNumeric(d1[s], ts) == LastNumeric(d2[s], ts)
    ensures Assigned(dev, d1, done) == Assigned(dev, d2, done)
  {
    var lhs := Assigned(dev, d1, done);
    var rhs := Assigned(dev, d2, done);
    forall k
      ensures k in lhs <==> k in rhs
      ensures k in lhs ==> lhs[k] == rhs[k]
    {
    }
    assert lhs == rhs;
  }

  /** Whether every statement of the transaction executes: no failing row, and the station exists if anything is written. */
  predicate ExecsSucceed(stations: map<string, StationRow>, dev: string, data: map<string, seq<TelemetryPoint>>, done: set<string>, failing: set<RowKey>) {
    Writes(dev, data, done) !! failing && (Writes(dev, data, done) == {} || dev in stations)
  }

  /** The error `StoreTelemetry` returns, in the order its steps can fail. */
  function TelemetryOutcome(stations: map<string, StationRow>, dev: string, data: map<string, seq<TelemetryPoint>>, faults: TxFaults<RowKey>): Option<DbError> {
    if faults.begin then Some(BeginFailed)
    else if faults.prepare then Some(PrepareFailed)
    else if !ExecsSucceed(stations, dev, data, data.Keys, faults.failing) then Some(ExecFailed)
    else if faults.commit then Some(CommitFailed)
    else None
  }

  /** All the numeric points of one more sensor executed: the transaction can still go on. */
  lemma SensorExecuted(stations: map<string, StationRow>, dev: string, data: map<string, seq<TelemetryPoint>>, done: set<string>, s: string, failing: set<RowKey>)
    requires s in data
    requires ExecsSucceed(stations, dev, data, done, failing)
    requires forall i :: (0 <= i < |data[s]| && Numeric(data[s][i].value).Some?
      ==> RowKey(dev, s, data[s][i].ts) !in failing && dev in stations)
    ensures ExecsSucceed(stations, dev, data, done + {s}, failing)
  {
    forall k | k in Writes(dev, data, done + {s})
      ensures k !in failing && dev in stations
    {
      if k.sensor == s {
        LastNumericIsLast(data[s], k.ts);
      } else {
        assert k in Writes(dev, data, done);
      }
    }
  }

  /** A numeric point whose statement fails makes the whole transaction fail. */
  lemma PointRejected(stations: map<string, StationRow>, dev: string, data: map<string, seq<TelemetryPoint>>, s: string, j: int, failing: set<RowKey>)
    requires s in data && 0 <= j < |data[s]| && Numeric(data[s][j].value).Some?
    requires dev !in stations || RowKey(dev, s, data[s][j].ts) in failing
    ensures !ExecsSucceed(stations, dev, data, data.Keys, failing)
  {
    LastNumericIsLast(data[s], data[s][j].ts);
    assert RowKey(dev, s, data[s][j].ts) in Writes(dev, data, data.Keys);
  }

  // ---------------------------------------------------------------------
  // Stations

  function RowOf(d: Device): StationRow {
    StationRow(d.name, d.labelText, d.latitude, d.longitude)
  }

  function IdsOf(ds: seq<Device>): set<string> {
    set d | d in ds :: d.id
  }

  /** The MERGE statement run for each device in order. */
  function Merge(st: map<string, StationRow>, ds: seq<Device>): map<string, StationRow> {
    if |ds| == 0 then st
    else
      var d := ds[|ds| - 1];
      Merge(st, ds[..|ds| - 1])[d.id := RowOf(d)]
  }

  /** The last device with ID `id`, if any. */
  function LastDevice(ds: seq<Device>, id: string): (r: Option<Device>)
    ensures r.Some? ==> r.value in ds && r.value.id == id
    ensures r.None? ==> id !in IdsOf(ds)
  {
    if |ds| == 0 then None
    else if ds[|ds| - 1].id == id then Some(ds[|ds| - 1])
    else
      var r := LastDevice(ds[..|ds| - 1], id);
      assert ds == ds[..|ds| - 1] + [ds[|ds| - 1]];
      r
  }

  /** The Stations table a MERGE of `ds` leaves, described without its order of execution. */
  function Merged(st: map<string, StationRow>, ds: seq<Device>): map<string, StationRow> {
    map id | id in st.Keys + IdsOf(ds) ::
      match LastDevice(ds, id)
      case Some(d) => RowOf(d)
      case None => st[id]
  }

  /** MERGE by ID: existing IDs get the last device's columns, new IDs are inserted, other rows are kept. */
  lemma {:induction false} MergeIsMerged(st: map<string, StationRow>, ds: seq<Device>)
    ensures Merge(st, ds) == Merged(st, ds)
    decreases |ds|
  {
    if |ds| > 0 {
      var init := ds[..|ds| - 1];
      var d := ds[|ds| - 1];
      MergeIsMerged(st, init);
      assert ds == init + [d];
      MergedStep(st, init, d);
    }
  }

  /** One more device on the order-free side: its row is set, the others stay. */
  lemma MergedStep(st: map<string, StationRow>, init: seq<Device>, d: Device)
    ensures Merged(st, init + [d]) == Merged(st, init)[d.id := RowOf(d)]
  {
    var lhs := Merged(st, init + [d]);
    var rhs := Merged(st, init)[d.id := RowOf(d)];
    IdsOfAppend(init, d);
    forall id | id in lhs
      ensures lhs[id] == rhs[id]
    {
      LastDeviceAppend(init, d, id);
    }
    assert lhs.Keys == rhs.Keys;
  }

  lemma IdsOfAppend(init: seq<Device>, d: Device)
    ensures IdsOf(init + [d]) == IdsOf(init) + {d.id}
  {
    assert forall x :: x in init + [d] <==> x in init || x == d;
  }

  lemma LastDeviceAppend(init: seq<Device>, d: Device, id: string)
    ensures LastDevice(init + [d], id) == if id == d.id then Some(d) else LastDevice(init, id)
  {
    assert (init + [d])[..|init|] == init;
  }

  /** Merging the same devices again changes nothing. */
  lemma MergeIdempotent(st: map<string, StationRow>, ds: seq<Device>)
    ensures Merge(Merge(st, ds), ds) == Merge(st, ds)
  {
    MergeIsMerged(st, ds);
    MergeIsMerged(Merge(st, ds), ds);
    var once := Merged(st, ds);
    var twice := Merged(once, ds);
    assert twice.Keys == once.Keys;
  }

  /** The error `StoreStations` returns, in the order its steps can fail. */
  function StationsOutcome(ds: seq<Device>, faults: TxFaults<string>): Option<DbError> {
    if faults.begin then Some(BeginFailed)
    else if faults.prepare then Some(PrepareFailed)
    else if !(IdsOf(ds) !! faults.failing) then Some(ExecFailed)
    else if faults.commit then Some(CommitFailed)
    else None
  }

  // ---------------------------------------------------------------------
  // Watermarks

  /** Whether table `t` holds a row for this station and sensor. */
  predicate HasRows(t: map<RowKey, TelemetryRow>, station: string, sensor: string) {
    exists k :: k in t && k.station == station && k.sensor == sensor
  }

  /**
   * What `GetLatestTelemetryTimestamp` answers: the largest stored timestamp
   * of the station and sensor, or 0 when the query finds no row.
   */
  predicate IsLatest(t: map<RowKey, TelemetryRow>, station: string, sensor: string, ts: int) {
    && (!HasRows(t, station, sensor) ==> ts == 0)
    && (HasRows(t, station, sensor) ==> RowKey(station, sensor, ts) in t)
    && forall k :: k in t && k.station == station && k.sensor == sensor ==> k.ts <= ts
  }

  /** At most one answer fits: the watermark is a function of the table. */
  lemma LatestUnique(t: map<RowKey, TelemetryRow>, station: string, sensor: string, a: int, b: int)
    requires IsLatest(t, station, sensor, a) && IsLatest(t, station, sensor, b)
    ensures a == b
  {
    if HasRows(t, station, sensor) {
      assert RowKey(station, sensor, a) in t && RowKey(station, sensor, b) in t;
    }
  }

  /** After a successful store, the watermark of a sensor is at least every numeric point's timestamp. */
  lemma StoredRaisesLatest(t: map<RowKey, TelemetryRow>, dev: string, data: map<string, seq<TelemetryPoint>>, s: string, i: int, w: int)
    requires s in data && 0 <= i < |data[s]| && Numeric(data[s][i].value).Some?
    requires IsLatest(Stored(t, dev, data, data.Keys), dev, s, w)
    ensures data[s][i].ts <= w
  {
    LastNumericIsLast(data[s], data[s][i].ts);
    assert RowKey(dev, s, data[s][i].ts) in Writes(dev, data, data.Keys);
  }
  // ---------------------------------------------------------------------
  // The database handle

  /** `DBManager`: the two tables, updated in place by its methods. */
  class DBManager {
    var stations: map<string, StationRow>
    var telemetry: map<RowKey, TelemetryRow>

    /** The constraints the schema enforces on every committed state. */
    predicate Valid()
      reads this
    {
      ForeignKeysHold(stations, telemetry)
    }

    /** Freshly created tables are empty. */
    constructor()
      ensures Valid()
      ensures stations == map[] && telemetry == map[]
    {
      stations := map[];
      telemetry := map[];
    }

    /**
     * `StoreTelemetry`: upsert every numeric point of every sensor of `data`
     * for station `deviceId` inside one transaction, which commits all of it
     * or rolls back to the state before the call.
     */
    method StoreTelemetry(deviceId: string, data: map<string, seq<TelemetryPoint>>, faults: TxFaults<RowKey>)
      returns (err: Option<DbError>)
      requires Valid()
      modifies this
      ensures Valid()
      ensures stations == old(stations)
      ensures err == TelemetryOutcome(old(stations), deviceId, data, faults)
      ensures err.None? ==> telemetry == Stored(old(telemetry), deviceId, data, data.Keys)
      ensures err.Some? ==> telemetry == old(telemetry)
    {
      if faults.begin {
        return Some(BeginFailed);
      }
      if faults.prepare {
        return Some(PrepareFailed);
      }
      // The transaction's view of the table; the table itself changes only on commit.
      var tx, ok := ExecuteAll(telemetry, deviceId, data, faults.failing);
      if !ok {
        // Rollback: the transaction's writes are dropped.
        return Some(ExecFailed);
      }
      if faults.commit {
        return Some(CommitFailed);
      }
      StoredKeepsForeignKeys(stations, telemetry, deviceId, data, data.Keys);
      telemetry := tx;
      return None;
    }

    /**
     * The outer loop of `StoreTelemetry`: the points of each sensor, the
     * sensors taken in any order (Go's map order), on the transaction's view
     * `tx` of the table; `ok` is false once a statement fails.
     */
    method ExecuteAll(tx: map<RowKey, TelemetryRow>, deviceId: string, data: map<string, seq<TelemetryPoint>>, failing: set<RowKey>)
      returns (after: map<RowKey, TelemetryRow>, ok: bool)
      ensures ok <==> ExecsSucceed(stations, deviceId, data, data.Keys, failing)
      ensures ok ==> after == Stored(tx, deviceId, data, data.Keys)
    {
      after := tx;
      var pending := data.Keys;
      ghost var done: set<string> := {};
      NothingStored(tx, deviceId, data);
      while pending != {}
        invariant pending !! done && pending + done == data.Keys
        invariant after == Stored(tx, deviceId, data, done)
        invariant ExecsSucceed(stations, deviceId, data, done, failing)
        decreases pending
      {
        var sensorKey :| sensorKey in pending;
        var sensorOk;
        after, sensorOk := ExecutePoints(after, deviceId, sensorKey, data[sensorKey], failing);
        if !sensorOk {
          assert !ExecsSucceed(stations, deviceId, data, data.Keys, failing) by {
            var j :| 0 <= j < |data[sensorKey]| && Numeric(data[sensorKey][j].value).Some?
              && !(RowKey(deviceId, sensorKey, data[sensorKey][j].ts) !in failing && deviceId in stations);
            PointRejected(stations, deviceId, data, sensorKey, j, failing);
          }
          return after, false;
        }
        assert after == Stored(tx, deviceId, data, done + {sensorKey}) by {
          SensorStored(tx, deviceId, data, done, sensorKey);
        }
        assert ExecsSucceed(stations, deviceId, data, done + {sensorKey}, failing) by {
          SensorExecuted(stations, deviceId, data, done, sensorKey, failing);
        }
        done := done + {sensorKey};
        pending := pending - {sensorKey};
      }
      return after, true;
    }

    /**
     * The inner loop of `StoreTelemetry`: execute the statement for each
     * numeric point of one sensor in order, stopping at the first statement
     * that fails (a failing row, or an unknown station under the foreign key).
     */
    method ExecutePoints(tx: map<RowKey, TelemetryRow>, deviceId: string, sensorKey: string, points: seq<TelemetryPoint>, failing: set<RowKey>)
      returns (after: map<RowKey, TelemetryRow>, ok: bool)
      ensures ok <==> forall i :: (0 <= i < |points| && Numeric(points[i].value).Some?
        ==> RowKey(deviceId, sensorKey, points[i].ts) !in failing && deviceId in stations)
      ensures ok ==> after == StorePoints(tx, deviceId, sensorKey, points)
    {
      after := tx;
      var j := 0;
      while j < |points|
        invariant 0 <= j <= |points|
        invariant after == StorePoints(tx, deviceId, sensorKey, points[..j])
        invariant forall i :: (0 <= i < j && Numeric(points[i].value).Some?
          ==> RowKey(deviceId, sensorKey, points[i].ts) !in failing && deviceId in stations)
      {
        var point := points[j];
        match Numeric(point.value) {
          case None =>
            StorePointsSkip(tx, deviceId, sensorKey, points, j);
          case Some(v) =>
            var key := RowKey(deviceId, sensorKey, point.ts);
            if deviceId !in stations || key in failing {
              return after, false;
            }
            StorePointsUpsert(tx, deviceId, sensorKey, points, j, v);
            after := Upsert(after, key, v);
        }
        j := j + 1;
      }
      assert points[..j] == points;
      return after, true;
    }

    /** `StoreStations`: MERGE every device by ID inside one transaction, all or nothing. */
    method StoreStations(devices: seq<Device>, faults: TxFaults<string>) returns (err: Option<DbError>)
      requires Valid()
      modifies this
      ensures Valid()
      ensures telemetry == old(telemetry)
      ensures err == StationsOutcome(devices, faults)
      ensures err.None? ==> stations == Merge(old(stations), devices)
      ensures err.Some? ==> stations == old(stations)
    {
      if faults.begin {
        return Some(BeginFailed);
      }
      if faults.prepare {
        return Some(PrepareFailed);
      }
      // The transaction's view of the table; the table itself changes only on commit.
      var tx := stations;
      for i := 0 to |devices|
        invariant tx == Merge(stations, devices[..i])
        invariant forall j :: 0 <= j < i ==> devices[j].id !in faults.failing
        modifies {}
      {
        var device := devices[i];
        assert devices[..i + 1] == devices[..i] + [device];
        if device.id in faults.failing {
          assert device.id in IdsOf(devices);
          return Some(ExecFailed);
        }
        tx := tx[device.id := RowOf(device)];
      }
      assert devices[..|devices|] == devices;
      assert IdsOf(devices) !! faults.failing;
      if faults.commit {
        return Some(CommitFailed);
      }
      MergeIsMerged(stations, devices);
      stations := tx;
      return None;
    }

    /** `GetLatestTelemetryTimestamp`: the SELECT TOP 1 … ORDER BY Timestamp DESC query, as a scan of the table. */
    method GetLatestTelemetryTimestamp(stationId: string, sensorKey: string, queryFails: bool)
      returns (ts: int, err: Option<DbError>)
      ensures queryFails ==> err == Some(QueryFailed) && ts == 0
      ensures !queryFails ==> err.None? && IsLatest(telemetry, stationId, sensorKey, ts)
    {
      if queryFails {
        return 0, Some(QueryFailed);
      }
      err := None;
      ts := 0;
      var found := false;
      var rest := telemetry.Keys;
      while rest != {}
        invariant rest <= telemetry.Keys
        invariant found ==> RowKey(stationId, sensorKey, ts) in telemetry
        invariant !found ==> ts == 0
        invariant !found ==> forall k :: (k in telemetry && k !in rest ==> !(k.station == stationId && k.sensor == sensorKey))
        invariant forall k :: (k in telemetry && k !in rest && k.station == stationId && k.sensor == sensorKey ==> k.ts <= ts)
        decreases rest
      {
        var k :| k in rest;
        if k.station == stationId && k.sensor == sensorKey && (!found || k.ts > ts) {
          ts := k.ts;
          found := true;
        }
        rest := rest - {k};
      }
    }

    /** `GetStations`: the ID of every station, read row by row. */
    method GetStations(faults: ReadFaults) returns (ids: seq<string>, err: Option<DbError>)
      ensures err == if faults.query then Some(QueryFailed)
                     else if !(stations.Keys !! faults.failingScans) then Some(ScanFailed)
                     else if faults.iteration then Some(IterationFailed)
                     else None
      ensures err.Some? ==> ids == []
      ensures err.None? ==> (forall i :: 0 <= i < |ids| ==> ids[i] in stations)
      ensures err.None? ==> (forall id :: id in stations ==> id in ids)
      ensures forall i, j :: 0 <= i < j < |ids| ==> ids[i] != ids[j]
    {
      if faults.query {
        return [], Some(QueryFailed);
      }
      ids := [];
      var rest := stations.Keys;
      while rest != {}
        invariant rest <= stations.Keys
        invariant forall i :: 0 <= i < |ids| ==> ids[i] in stations && ids[i] !in rest
        invariant forall id :: id in stations && id !in rest ==> id in ids
        invariant forall id :: id in stations && id !in rest ==> id !in faults.failingScans
        invariant forall i, j :: 0 <= i < j < |ids| ==> ids[i] != ids[j]
        decreases rest
      {
        var id :| id in rest;
        if id in faults.failingScans {
          return [], Some(ScanFailed);
        }
        ids := ids + [id];
        rest := rest - {id};
      }
      if faults.iteration {
        return [], Some(IterationFailed);
      }
      err := None;
    }
  }
}
