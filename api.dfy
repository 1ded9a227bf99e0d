/**
 * The client side of the weather-station API (pkg/api/weatherapi.go): the
 * session held by `WeatherAPI`, the log-in-when-empty and
 * log-in-again-and-retry recursion of the three fetch calls, and the
 * conversion of the flat telemetry records into a map from sensor key to
 * points.
 *
 * The HTTP server is not part of the model. It is replaced by a `Remote`
 * object that hands out, per endpoint, the next decoded reply from a script
 * and logs every request it receives; when a script runs out the endpoint
 * behaves as unreachable.
 */
module Api {
  import opened Wrappers

  /** A JSON value as Go's `interface{}` holds it after decoding (`str_v`, `TelemetryPoint.Value`). */
  datatype JsonValue = JNull | JBool(b: bool) | JNumber(x: real) | JString(s: string) | JComposite

  /** One record of a telemetry response (`TelemetryData`). */
  datatype TelemetryRecord = TelemetryRecord(entityId: string, key: string, ts: int, dblV: real, strV: JsonValue)

  /** One point of the per-key map the fetch calls return (`TelemetryPoint`). */
  datatype TelemetryPoint = TelemetryPoint(ts: int, value: JsonValue)

  /** The station fields the service keeps (`Device`; the other fields are not used downstream). */
  datatype Device = Device(id: string, name: string, labelText: string, latitude: real, longitude: real)

  /** What one POST returned: no answer at all, a body that does not decode, or a decoded status and payload. */
  datatype Reply<D> = Unreachable | Undecodable | Answer(status: string, data: D)

  datatype ApiError = TransportError | DecodeError | AuthRejected | MissingSession

  /** The body of a data request, which also names the endpoint it goes to. */
  datatype Query =
    | DevicesQuery
    | TelemetryQuery(devices: seq<string>, keys: seq<string>, tsFrom: int, tsTo: int)
    | LatestQuery(devices: seq<string>, keys: seq<string>, tsFrom: int, tsTo: int)

  datatype Request = LoginRequest | DataRequest(sid: string, query: Query)

  /** The replies the server has yet to give, one script per endpoint. */
  datatype Scripts = Scripts(
    logins: seq<Reply<string>>,
    devices: seq<Reply<seq<Device>>>,
    telemetry: seq<Reply<seq<TelemetryRecord>>>,
    latest: seq<Reply<seq<TelemetryRecord>>>)

  /** The reply the next request to an endpoint gets: an exhausted script is unreachable. */
  function NextReply<D>(script: seq<Reply<D>>): (r: Reply<D>)
    ensures r.Answer? ==> |script| > 0
  {
    if |script| == 0 then Unreachable else script[0]
  }

  function Consumed<D>(script: seq<Reply<D>>): (rest: seq<Reply<D>>)
    ensures |script| > 0 ==> |rest| == |script| - 1
    ensures |script| == 0 ==> rest == []
  {
    if |script| == 0 then [] else script[1..]
  }

  /** The scripted server behind `ApiBaseURL`. */
  class Remote {
    var pending: Scripts
    var requests: seq<Request>

    constructor(script: Scripts)
      ensures pending == script && requests == []
    {
      pending := script;
      requests := [];
    }

    method PostLogin() returns (r: Reply<string>)
      modifies this
      ensures r == NextReply(old(pending.logins))
      ensures pending == old(pending).(logins := Consumed(old(pending.logins)))
      ensures requests == old(requests) + [LoginRequest]
    {
      r := NextReply(pending.logins);
      pending := pending.(logins := Consumed(pending.logins));
      requests := requests + [LoginRequest];
    }

    method PostDevices(sid: string) returns (r: Reply<seq<Device>>)
      modifies this
      ensures r == NextReply(old(pending.devices))
      ensures pending == old(pending).(devices := Consumed(old(pending.devices)))
      ensures requests == old(requests) + [DataRequest(sid, DevicesQuery)]
    {
      r := NextReply(pending.devices);
      pending := pending.(devices := Consumed(pending.devices));
      requests := requests + [DataRequest(sid, DevicesQuery)];
    }

    method PostTelemetry(sid: string, q: Query) returns (r: Reply<seq<TelemetryRecord>>)
      modifies this
      ensures r == NextReply(old(pending.telemetry))
      ensures pending == old(pending).(telemetry := Consumed(old(pending.telemetry)))
      ensures requests == old(requests) + [DataRequest(sid, q)]
    {
      r := NextReply(pending.telemetry);
      pending := pending.(telemetry := Consumed(pending.telemetry));
      requests := requests + [DataRequest(sid, q)];
    }

    method PostLatest(sid: string, q: Query) returns (r: Reply<seq<TelemetryRecord>>)
      modifies this
      ensures r == NextReply(old(pending.latest))
      ensures pending == old(pending).(latest := Consumed(old(pending.latest)))
      ensures requests == old(requests) + [DataRequest(sid, q)]
    {
      r := NextReply(pending.latest);
      pending := pending.(latest := Consumed(pending.latest));
      requests := requests + [DataRequest(sid, q)];
    }
  }

  // ---------------------------------------------------------------------
  // Session handling, as a specification

  /** What `Login` makes of a reply: the new session id, or why there is none. */
  function LoginOutcome(r: Reply<string>): Result<string, ApiError> {
    match r
    case Unreachable => Err(TransportError)
    case Undecodable => Err(DecodeError)
    case Answer(status, sid) =>
      if status == "error" then Err(AuthRejected)
      else if sid == "" then Err(MissingSession)
      else Ok(sid)
  }

  /** A session id is adopted exactly when the status is not "error" and the sid is non-empty. */
  lemma LoginAdoptsOnlyGoodSessions(r: Reply<string>)
    ensures LoginOutcome(r).Ok? <==> r.Answer? && r.status != "error" && r.data != ""
    ensures LoginOutcome(r).Ok? ==> LoginOutcome(r).value == r.data && r.data != ""
  {
  }

  /** One round trip as seen from the client: a login, or a data request made with a session id. */
  datatype Call = LoginCall | DataCall(sid: string)

  /**
   * The course of one fetch call: its result, the session id it leaves
   * behind, the round trips it made in order, and what is left of the
   * login and data scripts.
   */
  datatype Run<D> = Run(result: Result<D, ApiError>, sid: string, calls: seq<Call>,
                        logins: seq<Reply<string>>, replies: seq<Reply<D>>)

  function Prefixed<D>(calls: seq<Call>, run: Run<D>): Run<D> {
    run.(calls := calls + run.calls)
  }

  /**
   * A fetch call entered with session `sid`: log in first when the session
   * is empty (a failed login ends the call), then ask.
   */
  function Fetch<D>(sid: string, logins: seq<Reply<string>>, replies: seq<Reply<D>>): Run<D>
    decreases |replies|, 1
  {
    if sid == "" then
      match LoginOutcome(NextReply(logins))
      case Err(e) => Run(Err(e), sid, [LoginCall], Consumed(logins), replies)
      case Ok(s) => Prefixed([LoginCall], Ask(s, Consumed(logins), replies))
    else
      Ask(sid, logins, replies)
  }

  /**
   * Sending the request with session `sid`: an "OK" answer ends the call with
   * its data; any other status logs in again and, if that works, re-enters
   * the whole call with the new session, without any bound on the number of
   * rounds.
   */
  function Ask<D>(sid: string, logins: seq<Reply<string>>, replies: seq<Reply<D>>): Run<D>
    decreases |replies|, 0
  {
    var rest := Consumed(replies);
    match NextReply(replies)
    case Unreachable => Run(Err(TransportError), sid, [DataCall(sid)], logins, rest)
    case Undecodable => Run(Err(DecodeError), sid, [DataCall(sid)], logins, rest)
    case Answer(status, data) =>
      if status == "OK" then
        Run(Ok(data), sid, [DataCall(sid)], logins, rest)
      else
        match LoginOutcome(NextReply(logins))
        case Err(e) => Run(Err(e), sid, [DataCall(sid), LoginCall], Consumed(logins), rest)
        case Ok(s) => Prefixed([DataCall(sid), LoginCall], Fetch(s, Consumed(logins), rest))
  }

  /** The request a round trip sends, a data request carrying `q`. */
  function RequestOf(c: Call, q: Query): Request {
    if c.LoginCall? then LoginRequest else DataRequest(c.sid, q)
  }

  /** The requests the server sees for a run's round trips. */
  function Requests(calls: seq<Call>, q: Query): (rs: seq<Request>)
    ensures |rs| == |calls|
  {
    if |calls| == 0 then []
    else Requests(calls[..|calls| - 1], q) + [RequestOf(calls[|calls| - 1], q)]
  }

  lemma {:induction false} RequestsAppend(a: seq<Call>, b: seq<Call>, q: Query)
    ensures Requests(a + b, q) == Requests(a, q) + Requests(b, q)
    decreases |b|
  {
    if |b| == 0 {
      assert a + b == a;
    } else {
      var b' := b[..|b| - 1];
      assert (a + b)[..|a + b| - 1] == a + b';
      RequestsAppend(a, b', q);
    }
  }

  lemma RequestsAt(calls: seq<Call>, q: Query, i: int)
    requires 0 <= i < |calls|
    ensures Requests(calls, q)[i] == RequestOf(calls[i], q)
  {
    if i < |calls| - 1 {
      RequestsAt(calls[..|calls| - 1], q, i);
    }
  }

  /** `Fetch` with a session in hand is `Ask`. */
  lemma FetchHasSession<D>(sid: string, logins: seq<Reply<string>>, replies: seq<Reply<D>>)
    requires sid != ""
    ensures Fetch(sid, logins, replies) == Ask(sid, logins, replies)
  {
  }

  /** `Fetch` from an empty session whose login fails: that single round trip. */
  lemma FetchLoginFails<D>(logins: seq<Reply<string>>, replies: seq<Reply<D>>, q: Query)
    requires LoginOutcome(NextReply(logins)).Err?
    ensures Fetch("", logins, replies)
      == Run(Err(LoginOutcome(NextReply(logins)).error), "", [LoginCall], Consumed(logins), replies)
    ensures Requests(Fetch("", logins, replies).calls, q) == [LoginRequest]
  {
  }

  /** `Ask` whose reply ends the call: a transport or decoding failure, or an "OK" answer. */
  lemma AskEnds<D>(sid: string, logins: seq<Reply<string>>, replies: seq<Reply<D>>, q: Query)
    requires !(NextReply(replies).Answer? && NextReply(replies).status != "OK")
    ensures Ask(sid, logins, replies)
      == Run(Ask(sid, logins, replies).result, sid, [DataCall(sid)], logins, Consumed(replies))
    ensures NextReply(replies).Answer? ==> Ask(sid, logins, replies).result == Ok(NextReply(replies).data)
    ensures NextReply(replies).Unreachable? ==> Ask(sid, logins, replies).result == Err(TransportError)
    ensures NextReply(replies).Undecodable? ==> Ask(sid, logins, replies).result == Err(DecodeError)
    ensures Requests(Ask(sid, logins, replies).calls, q) == [DataRequest(sid, q)]
  {
  }

  /** `Ask` whose non-OK answer is followed by a failed login: two round trips. */
  lemma AskLoginFails<D>(sid: string, logins: seq<Reply<string>>, replies: seq<Reply<D>>, q: Query)
    requires NextReply(replies).Answer? && NextReply(replies).status != "OK"
    requires LoginOutcome(NextReply(logins)).Err?
    ensures Ask(sid, logins, replies)
      == Run(Err(LoginOutcome(NextReply(logins)).error), sid, [DataCall(sid), LoginCall], Consumed(logins), Consumed(replies))
    ensures Requests(Ask(sid, logins, replies).calls, q) == [DataRequest(sid, q), LoginRequest]
  {
    assert [DataCall(sid), LoginCall][..1] == [DataCall(sid)];
  }

  /** One step of `Fetch` from an empty session whose login succeeds: the login round trip, then `Ask`. */
  lemma FetchLogsIn<D>(logins: seq<Reply<string>>, replies: seq<Reply<D>>, q: Query)
    requires LoginOutcome(NextReply(logins)).Ok?
    ensures Fetch("", logins, replies)
      == Prefixed([LoginCall], Ask(LoginOutcome(NextReply(logins)).value, Consumed(logins), replies))
    ensures Requests(Fetch("", logins, replies).calls, q)
      == [LoginRequest] + Requests(Ask(LoginOutcome(NextReply(logins)).value, Consumed(logins), replies).calls, q)
  {
    var ask := Ask(LoginOutcome(NextReply(logins)).value, Consumed(logins), replies);
    assert Requests([LoginCall], q) == [LoginRequest];
    RequestsAppend([LoginCall], ask.calls, q);
  }

  /** One retry step of `Ask`: a non-OK answer, a successful login, then `Fetch` again. */
  lemma AskRetries<D>(sid: string, logins: seq<Reply<string>>, replies: seq<Reply<D>>, q: Query)
    requires NextReply(replies).Answer? && NextReply(replies).status != "OK"
    requires LoginOutcome(NextReply(logins)).Ok?
    ensures Ask(sid, logins, replies)
      == Prefixed([DataCall(sid), LoginCall], Fetch(LoginOutcome(NextReply(logins)).value, Consumed(logins), Consumed(replies)))
    ensures Requests(Ask(sid, logins, replies).calls, q)
      == [DataRequest(sid, q), LoginRequest]
         + Requests(Fetch(LoginOutcome(NextReply(logins)).value, Consumed(logins), Consumed(replies)).calls, q)
  {
    var head := [DataCall(sid), LoginCall];
    var inner := Fetch(LoginOutcome(NextReply(logins)).value, Consumed(logins), Consumed(replies));
    assert Requests(head, q) == [DataRequest(sid, q), LoginRequest] by {
      assert head[..1] == [DataCall(sid)];
    }
    RequestsAppend(head, inner.calls, q);
  }

  // ---------------------------------------------------------------------
  // Properties of the session logic

  /** Every run makes at least one round trip, and every data request carries a non-empty session id. */
  lemma {:induction false} FetchCalls<D>(sid: string, logins: seq<Reply<string>>, replies: seq<Reply<D>>)
    ensures |Fetch(sid, logins, replies).calls| > 0
    ensures forall c :: c in Fetch(sid, logins, replies).calls && c.DataCall? ==> c.sid != ""
    decreases |replies|, 1
  {
    if sid == "" {
      if LoginOutcome(NextReply(logins)).Ok? {
        AskCalls(LoginOutcome(NextReply(logins)).value, Consumed(logins), replies);
      }
    } else {
      AskCalls(sid, logins, replies);
    }
  }

  lemma {:induction false} AskCalls<D>(sid: string, logins: seq<Reply<string>>, replies: seq<Reply<D>>)
    requires sid != ""
    ensures |Ask(sid, logins, replies).calls| > 0
    ensures forall c :: c in Ask(sid, logins, replies).calls && c.DataCall? ==> c.sid != ""
    decreases |replies|, 0
  {
    var r := NextReply(replies);
    if r.Answer? && r.status != "OK" && LoginOutcome(NextReply(logins)).Ok? {
      var s := LoginOutcome(NextReply(logins)).value;
      FetchCalls(s, Consumed(logins), Consumed(replies));
    }
  }

  /** With no session, a login that fails ends the call before any data request is made. */
  lemma NoRequestWithoutSession<D>(logins: seq<Reply<string>>, replies: seq<Reply<D>>)
    requires LoginOutcome(NextReply(logins)).Err?
    ensures Fetch("", logins, replies).calls == [LoginCall]
    ensures Fetch("", logins, replies).result == Err(LoginOutcome(NextReply(logins)).error)
    ensures Fetch("", logins, replies).replies == replies
  {
  }

  /** The session a run leaves is the one it started with or one a consumed login reply carried. */
  lemma {:induction false} FetchSession<D>(sid: string, logins: seq<Reply<string>>, replies: seq<Reply<D>>)
    ensures var run := Fetch(sid, logins, replies);
      run.sid == sid || exists i :: 0 <= i < |logins| - |run.logins| && LoginOutcome(logins[i]) == Ok(run.sid)
    ensures |Fetch(sid, logins, replies).logins| <= |logins|
    ensures Fetch(sid, logins, replies).logins == logins[|logins| - |Fetch(sid, logins, replies).logins|..]
    decreases |replies|, 1
  {
    if sid == "" {
      var o := LoginOutcome(NextReply(logins));
      if o.Ok? {
        AskSession(o.value, Consumed(logins), replies);
        ShiftedSession(o.value, logins, Ask(o.value, Consumed(logins), replies));
      }
    } else {
      AskSession(sid, logins, replies);
    }
  }

  lemma {:induction false} AskSession<D>(sid: string, logins: seq<Reply<string>>, replies: seq<Reply<D>>)
    ensures var run := Ask(sid, logins, replies);
      run.sid == sid || exists i :: 0 <= i < |logins| - |run.logins| && LoginOutcome(logins[i]) == Ok(run.sid)
    ensures |Ask(sid, logins, replies).logins| <= |logins|
    ensures Ask(sid, logins, replies).logins == logins[|logins| - |Ask(sid, logins, replies).logins|..]
    decreases |replies|, 0
  {
    var r := NextReply(replies);
    if r.Answer? && r.status != "OK" {
      var o := LoginOutcome(NextReply(logins));
      if o.Ok? {
        FetchSession(o.value, Consumed(logins), Consumed(replies));
        ShiftedSession(o.value, logins, Fetch(o.value, Consumed(logins), Consumed(replies)));
      }
    }
  }

  /** Bookkeeping for the two lemmas above: a run on the rest of the login script, seen from the whole script. */
  lemma ShiftedSession<D>(s: string, logins: seq<Reply<string>>, run: Run<D>)
    requires LoginOutcome(NextReply(logins)) == Ok(s)
    requires run.sid == s || exists i :: 0 <= i < |Consumed(logins)| - |run.logins| && LoginOutcome(Consumed(logins)[i]) == Ok(run.sid)
    requires |run.logins| <= |Consumed(logins)|
    requires run.logins == Consumed(logins)[|Consumed(logins)| - |run.logins|..]
    ensures exists i :: 0 <= i < |logins| - |run.logins| && LoginOutcome(logins[i]) == Ok(run.sid)
    ensures |run.logins| <= |logins|
    ensures run.logins == logins[|logins| - |run.logins|..]
  {
    var rest := Consumed(logins);
    var n := |run.logins|;
    assert |logins| > 0 && rest == logins[1..];
    assert run.logins == logins[|logins| - n..] by {
      assert rest[|rest| - n..] == logins[|logins| - n..];
    }
    if run.sid == s {
      assert LoginOutcome(logins[0]) == Ok(run.sid);
    } else {
      var i :| 0 <= i < |rest| - n && LoginOutcome(rest[i]) == Ok(run.sid);
      assert LoginOutcome(logins[i + 1]) == Ok(run.sid);
    }
  }

  /** `n` rejected answers, each followed by a good login, then an "OK" answer. */
  ghost predicate RejectsThenOk<D>(n: nat, logins: seq<Reply<string>>, replies: seq<Reply<D>>, data: D) {
    && |replies| == n + 1
    && |logins| >= n
    && (forall i :: 0 <= i < n ==> replies[i].Answer? && replies[i].status != "OK")
    && replies[n] == Answer("OK", data)
    && (forall i :: 0 <= i < n ==> LoginOutcome(logins[i]).Ok?)
  }

  /**
   * There is no retry bound: after any number `n` of non-OK answers, each
   * followed by a successful login, the call still succeeds, having made
   * `n + 1` data requests and `n` logins.
   */
  lemma {:induction false} RetryIsUnbounded<D>(n: nat, sid: string, logins: seq<Reply<string>>, replies: seq<Reply<D>>, data: D)
    requires sid != ""
    requires RejectsThenOk(n, logins, replies, data)
    ensures Ask(sid, logins, replies).result == Ok(data)
    ensures |Ask(sid, logins, replies).calls| == 2 * n + 1
    ensures Ask(sid, logins, replies).logins == logins[n..]
    decreases n
  {
    if n > 0 {
      var s := LoginOutcome(logins[0]).value;
      LoginAdoptsOnlyGoodSessions(logins[0]);
      var logins', replies' := logins[1..], replies[1..];
      assert RejectsThenOk(n - 1, logins', replies', data) by {
        forall i | 0 <= i < n - 1
          ensures replies'[i].Answer? && replies'[i].status != "OK" && LoginOutcome(logins'[i]).Ok?
        {
          assert replies'[i] == replies[i + 1] && logins'[i] == logins[i + 1];
        }
      }
      RetryIsUnbounded(n - 1, s, logins', replies', data);
      assert logins'[n - 1..] == logins[n..];
    }
  }

  /** An "OK" result is the data of the last reply consumed, and every earlier consumed reply was answered but not "OK". */
  lemma {:induction false} OkIsFirstOkAnswer<D>(sid: string, logins: seq<Reply<string>>, replies: seq<Reply<D>>)
    requires Fetch(sid, logins, replies).result.Ok?
    ensures var run := Fetch(sid, logins, replies);
      var used := |replies| - |run.replies|;
      && 0 < used <= |replies|
      && run.replies == replies[used..]
      && replies[used - 1] == Answer("OK", run.result.value)
      && (forall i :: 0 <= i < used - 1 ==> replies[i].Answer? && replies[i].status != "OK")
    decreases |replies|, 1
  {
    if sid == "" {
      AskOk(LoginOutcome(NextReply(logins)).value, Consumed(logins), replies);
    } else {
      AskOk(sid, logins, replies);
    }
  }

  lemma {:induction false} AskOk<D>(sid: string, logins: seq<Reply<string>>, replies: seq<Reply<D>>)
    requires Ask(sid, logins, replies).result.Ok?
    ensures var run := Ask(sid, logins, replies);
      var used := |replies| - |run.replies|;
      && 0 < used <= |replies|
      && run.replies == replies[used..]
      && replies[used - 1] == Answer("OK", run.result.value)
      && (forall i :: 0 <= i < used - 1 ==> replies[i].Answer? && replies[i].status != "OK")
    decreases |replies|, 0
  {
    var r := NextReply(replies);
    if r.Answer? && r.status != "OK" {
      var o := LoginOutcome(NextReply(logins));
      assert o.Ok? by {
        if o.Err? {
          AskLoginFails(sid, logins, replies, DevicesQuery);
        }
      }
      var rest := Consumed(replies);
      AskRetries(sid, logins, replies, DevicesQuery);
      var inner := Fetch(o.value, Consumed(logins), rest);
      OkIsFirstOkAnswer(o.value, Consumed(logins), rest);
      OkShifted(replies, inner.replies, inner.result.value);
    } else {
      AskEnds(sid, logins, replies, DevicesQuery);
    }
  }

  /** The shape `OkIsFirstOkAnswer` states survives one more non-OK answer in front. */
  lemma OkShifted<D>(replies: seq<Reply<D>>, tail: seq<Reply<D>>, v: D)
    requires |replies| > 0 && replies[0].Answer? && replies[0].status != "OK"
    requires var rest := replies[1..];
      var used := |rest| - |tail|;
      && 0 < used <= |rest|
      && tail == rest[used..]
      && rest[used - 1] == Answer("OK", v)
      && (forall i :: 0 <= i < used - 1 ==> rest[i].Answer? && rest[i].status != "OK")
    ensures var used := |replies| - |tail|;
      && 0 < used <= |replies|
      && tail == replies[used..]
      && replies[used - 1] == Answer("OK", v)
      && (forall i :: 0 <= i < used - 1 ==> replies[i].Answer? && replies[i].status != "OK")
  {
    var rest := replies[1..];
    var used := |rest| - |tail|;
    assert rest[used..] == replies[used + 1..];
    forall i | 0 <= i < used
      ensures replies[i].Answer? && replies[i].status != "OK"
    {
      if i > 0 { assert replies[i] == rest[i - 1]; }
    }
  }

  // ---------------------------------------------------------------------
  // Record-to-map conversion

  /** `DblV` when it is non-zero, otherwise `StrV` (so a reading of exactly 0.0 carries `StrV`). */
  function ToPoint(rec: TelemetryRecord): TelemetryPoint {
    TelemetryPoint(rec.ts, if rec.dblV != 0.0 then JNumber(rec.dblV) else rec.strV)
  }

  /** The sensor keys that occur in a response. */
  function KeysOf(records: seq<TelemetryRecord>): set<string> {
    set r | r in records :: r.key
  }

  /** The points of the records with key `k`, in response order. */
  function PointsFor(records: seq<TelemetryRecord>, k: string): (ps: seq<TelemetryPoint>)
    ensures |ps| <= |records|
  {
    if |records| == 0 then []
    else
      var last := records[|records| - 1];
      PointsFor(records[..|records| - 1], k) + (if last.key == k then [ToPoint(last)] else [])
  }

  /** The map the conversion loop is meant to build. */
  function PointsByKey(records: seq<TelemetryRecord>): map<string, seq<TelemetryPoint>> {
    map k | k in KeysOf(records) :: PointsFor(records, k)
  }

  /**
   * The conversion loop of `GetTelemetry` and `GetLatestTelemetry`: each
   * record is appended, as a point, to the list under its key.
   */
  method ToPointMap(records: seq<TelemetryRecord>) returns (result: map<string, seq<TelemetryPoint>>)
    ensures result == PointsByKey(records)
  {
    result := map[];
    for i := 0 to |records|
      invariant result == PointsByKey(records[..i])
    {
      var data := records[i];
      var point := ToPoint(data);
      var existing := if data.key in result then result[data.key] else [];
      PointsByKeyPrefix(records, i);
      result := result[data.key := existing + [point]];
    }
    assert records[..|records|] == records;
  }

  lemma PointsForAbsent(records: seq<TelemetryRecord>, k: string)
    requires k !in KeysOf(records)
    ensures PointsFor(records, k) == []
  {
    if |records| > 0 {
      assert forall r :: r in records[..|records| - 1] ==> r in records;
      PointsForAbsent(records[..|records| - 1], k);
    }
  }

  lemma PointsForAppend(records: seq<TelemetryRecord>, r: TelemetryRecord, k: string)
    ensures PointsFor(records + [r], k) == PointsFor(records, k) + (if r.key == k then [ToPoint(r)] else [])
  {
    assert (records + [r])[..|records|] == records;
  }

  lemma KeysOfAppend(records: seq<TelemetryRecord>, r: TelemetryRecord)
    ensures KeysOf(records + [r]) == KeysOf(records) + {r.key}
  {
    var all := records + [r];
    forall k | k in KeysOf(all)
      ensures k in KeysOf(records) + {r.key}
    {
      var x :| x in all && x.key == k;
      if x != r {
        assert x in records;
      }
    }
    forall k | k in KeysOf(records)
      ensures k in KeysOf(all)
    {
      var x :| x in records && x.key == k;
      assert x in all;
    }
    assert r in all;
  }

  lemma PointsByKeyAppend(records: seq<TelemetryRecord>, r: TelemetryRecord)
    ensures var m := PointsByKey(records);
      PointsByKey(records + [r]) == m[r.key := (if r.key in m then m[r.key] else []) + [ToPoint(r)]]
  {
    var m := PointsByKey(records);
    var m' := m[r.key := (if r.key in m then m[r.key] else []) + [ToPoint(r)]];
    var all := PointsByKey(records + [r]);
    assert all.Keys == m'.Keys by {
      KeysOfAppend(records, r);
    }
    forall k | k in all
      ensures all[k] == m'[k]
    {
      PointsForAppend(records, r, k);
      if k == r.key && k !in m {
        PointsForAbsent(records, k);
      }
    }
  }

  /** The map of one more record of the response. */
  lemma PointsByKeyPrefix(records: seq<TelemetryRecord>, i: int)
    requires 0 <= i < |records|
    ensures var m := PointsByKey(records[..i]);
      var r := records[i];
      PointsByKey(records[..i + 1]) == m[r.key := (if r.key in m then m[r.key] else []) + [ToPoint(r)]]
  {
    assert records[..i + 1] == records[..i] + [records[i]];
    PointsByKeyAppend(records[..i], records[i]);
  }

  /** Total number of points over all keys of a map (what `processAndSaveTelemetry` counts). */
  ghost function TotalPoints(m: map<string, seq<TelemetryPoint>>): nat
    decreases |m.Keys|
  {
    if m == map[] then 0
    else
      var k :| k in m;
      |m[k]| + TotalPoints(m - {k})
  }

  /** The total does not depend on which key is taken first. */
  lemma {:induction false} TotalPointsAt(m: map<string, seq<TelemetryPoint>>, k: string)
    requires k in m
    ensures TotalPoints(m) == |m[k]| + TotalPoints(m - {k})
    decreases |m.Keys|
  {
    var j :| j in m && TotalPoints(m) == |m[j]| + TotalPoints(m - {j});
    if j != k {
      var mj := m - {j};
      var mk := m - {k};
      assert |mj.Keys| < |m.Keys| by { assert mj.Keys < m.Keys; }
      assert |mk.Keys| < |m.Keys| by { assert mk.Keys < m.Keys; }
      TotalPointsAt(mj, k);
      TotalPointsAt(mk, j);
      assert mj - {k} == mk - {j};
    }
  }

  lemma TotalPointsUpdate(m: map<string, seq<TelemetryPoint>>, k: string, v: seq<TelemetryPoint>)
    ensures TotalPoints(m[k := v]) == TotalPoints(m) - (if k in m then |m[k]| else 0) + |v|
  {
    var m' := m[k := v];
    TotalPointsAt(m', k);
    assert m' - {k} == m - {k};
    if k in m {
      TotalPointsAt(m, k);
    } else {
      assert m - {k} == m;
    }
  }

  /** The conversion keeps every record: as many points come out as records went in. */
  lemma {:induction false} PointsByKeyCount(records: seq<TelemetryRecord>)
    ensures TotalPoints(PointsByKey(records)) == |records|
  {
    if |records| > 0 {
      var init := records[..|records| - 1];
      var r := records[|records| - 1];
      assert records == init + [r];
      PointsByKeyCount(init);
      PointsByKeyAppend(init, r);
      var m := PointsByKey(init);
      TotalPointsUpdate(m, r.key, (if r.key in m then m[r.key] else []) + [ToPoint(r)]);
    }
  }

  /** Every key present in the map has at least one point. */
  lemma {:induction false} PointsByKeyNonEmpty(records: seq<TelemetryRecord>, k: string)
    requires k in PointsByKey(records)
    ensures PointsByKey(records)[k] != []
  {
    var i :| 0 <= i < |records| && records[i].key == k;
    PointsForHas(records, k, i);
  }

  lemma {:induction false} PointsForHas(records: seq<TelemetryRecord>, k: string, i: int)
    requires 0 <= i < |records| && records[i].key == k
    ensures ToPoint(records[i]) in PointsFor(records, k)
  {
    if i < |records| - 1 {
      PointsForHas(records[..|records| - 1], k, i);
    }
  }

  /** What a fetch call returns for a run's result: the data converted to the per-key map. */
  function Converted(res: Result<seq<TelemetryRecord>, ApiError>): Result<map<string, seq<TelemetryPoint>>, ApiError> {
    if res.Ok? then Ok(PointsByKey(res.value)) else Err(res.error)
  }

  // ---------------------------------------------------------------------
  // The client

  /** The `WeatherAPI` client: its session id and the server it talks to. */
  class WeatherApi {
    var sessionId: string
    const server: Remote

    /** `NewWeatherAPI`: a client starts without a session. */
    constructor(server: Remote)
      ensures sessionId == "" && this.server == server
    {
      sessionId := "";
      this.server := server;
    }

    /** `Login`: adopt the returned sid, or report why not and keep the old one. */
    method Login() returns (err: Option<ApiError>)
      modifies this, server
      ensures var outcome := LoginOutcome(NextReply(old(server.pending.logins)));
        && (err.None? <==> outcome.Ok?)
        && (err.Some? ==> err.value == outcome.error && sessionId == old(sessionId))
        && (err.None? ==> sessionId == outcome.value)
      ensures server.pending == old(server.pending).(logins := Consumed(old(server.pending.logins)))
      ensures server.requests == old(server.requests) + [LoginRequest]
    {
      var reply := server.PostLogin();
      match reply {
        case Unreachable => return Some(TransportError);
        case Undecodable => return Some(DecodeError);
        case Answer(status, sid) =>
          if status == "error" {
            return Some(AuthRejected);
          }
          if sid == "" {
            return Some(MissingSession);
          }
          sessionId := sid;
          return None;
      }
    }

    /** The log-in-when-empty step that opens each fetch call (lines shared by all three of them). */
    method EnsureSession() returns (err: Option<ApiError>)
      modifies this, server
      ensures old(sessionId) != "" ==>
        (err.None? && sessionId == old(sessionId)
         && server.pending == old(server.pending) && server.requests == old(server.requests))
      ensures old(sessionId) == "" ==>
        && (err.None? <==> LoginOutcome(NextReply(old(server.pending.logins))).Ok?)
        && (err.Some? ==> err.value == LoginOutcome(NextReply(old(server.pending.logins))).error)
        && sessionId == (if err.None? then LoginOutcome(NextReply(old(server.pending.logins))).value else old(sessionId))
        && server.pending == old(server.pending).(logins := Consumed(old(server.pending.logins)))
        && server.requests == old(server.requests) + [LoginRequest]
    {
      err := None;
      if sessionId == "" {
        err := Login();
      }
    }

    /** `GetDevices`: the devices of the first "OK" answer, as `Fetch` describes the whole exchange. */
    method GetDevices() returns (r: Result<seq<Device>, ApiError>)
      modifies this, server
      decreases |server.pending.devices|, 1
      ensures r == Fetch(old(sessionId), old(server.pending.logins), old(server.pending.devices)).result
      ensures sessionId == Fetch(old(sessionId), old(server.pending.logins), old(server.pending.devices)).sid
      ensures server.pending == old(server.pending).(
        logins := Fetch(old(sessionId), old(server.pending.logins), old(server.pending.devices)).logins,
        devices := Fetch(old(sessionId), old(server.pending.logins), old(server.pending.devices)).replies)
      ensures server.requests == old(server.requests)
        + Requests(Fetch(old(sessionId), old(server.pending.logins), old(server.pending.devices)).calls, DevicesQuery)
    {
      ghost var sid, logins, replies := sessionId, server.pending.logins, server.pending.devices;
      var err := EnsureSession();
      if err.Some? {
        FetchLoginFails(logins, replies, DevicesQuery);
        return Err(err.value);
      }
      if old(sessionId) == "" {
        FetchLogsIn(logins, replies, DevicesQuery);
      } else {
        FetchHasSession(sid, logins, replies);
      }
      r := AskDevices();
    }

    /** The part of `GetDevices` after the session check: ask, and on a non-OK status log in again and start over. */
    method AskDevices() returns (r: Result<seq<Device>, ApiError>)
      requires sessionId != ""
      modifies this, server
      decreases |server.pending.devices|, 0
      ensures r == Ask(old(sessionId), old(server.pending.logins), old(server.pending.devices)).result
      ensures sessionId == Ask(old(sessionId), old(server.pending.logins), old(server.pending.devices)).sid
      ensures server.pending == old(server.pending).(
        logins := Ask(old(sessionId), old(server.pending.logins), old(server.pending.devices)).logins,
        devices := Ask(old(sessionId), old(server.pending.logins), old(server.pending.devices)).replies)
      ensures server.requests == old(server.requests)
        + Requests(Ask(old(sessionId), old(server.pending.logins), old(server.pending.devices)).calls, DevicesQuery)
    {
      ghost var sid, logins, replies := sessionId, server.pending.logins, server.pending.devices;
      var reply := server.PostDevices(sessionId);
      if !(reply.Answer? && reply.status != "OK") {
        AskEnds(sid, logins, replies, DevicesQuery);
      }
      match reply {
        case Unreachable => return Err(TransportError);
        case Undecodable => return Err(DecodeError);
        case Answer(status, data) =>
          if status != "OK" {
            var err := Login();
            if err.Some? {
              AskLoginFails(sid, logins, replies, DevicesQuery);
              return Err(err.value);
            }
            ghost var sent := server.requests;
            assert sent == old(server.requests) + [DataRequest(sid, DevicesQuery), LoginRequest];
            r := GetDevices();
            AskRetries(sid, logins, replies, DevicesQuery);
            return;
          }
          return Ok(data);
      }
    }

    /** `GetTelemetry`: the points of one device over `[tsFrom, tsTo]`, grouped by key. */
    method GetTelemetry(deviceId: string, keys: seq<string>, tsFrom: int, tsTo: int) returns (r: Result<map<string, seq<TelemetryPoint>>, ApiError>)
      modifies this, server
      decreases |server.pending.telemetry|, 1
      ensures r == Converted(Fetch(old(sessionId), old(server.pending.logins), old(server.pending.telemetry)).result)
      ensures sessionId == Fetch(old(sessionId), old(server.pending.logins), old(server.pending.telemetry)).sid
      ensures server.pending == old(server.pending).(
        logins := Fetch(old(sessionId), old(server.pending.logins), old(server.pending.telemetry)).logins,
        telemetry := Fetch(old(sessionId), old(server.pending.logins), old(server.pending.telemetry)).replies)
      ensures server.requests == old(server.requests)
        + Requests(Fetch(old(sessionId), old(server.pending.logins), old(server.pending.telemetry)).calls, TelemetryQuery([deviceId], keys, tsFrom, tsTo))
    {
      ghost var q := TelemetryQuery([deviceId], keys, tsFrom, tsTo);
      ghost var logins, replies := server.pending.logins, server.pending.telemetry;
      var err := EnsureSession();
      if err.Some? {
        FetchLoginFails(logins, replies, q);
        return Err(err.value);
      }
      if old(sessionId) == "" {
        FetchLogsIn(logins, replies, q);
      } else {
        FetchHasSession(old(sessionId), logins, replies);
      }
      r := AskTelemetry(deviceId, keys, tsFrom, tsTo);
    }

    /** The part of `GetTelemetry` after the session check: ask, and on a non-OK status log in again and start over. */
    method AskTelemetry(deviceId: string, keys: seq<string>, tsFrom: int, tsTo: int) returns (r: Result<map<string, seq<TelemetryPoint>>, ApiError>)
      requires sessionId != ""
      modifies this, server
      decreases |server.pending.telemetry|, 0
      ensures r == Converted(Ask(old(sessionId), old(server.pending.logins), old(server.pending.telemetry)).result)
      ensures sessionId == Ask(old(sessionId), old(server.pending.logins), old(server.pending.telemetry)).sid
      ensures server.pending == old(server.pending).(
        logins := Ask(old(sessionId), old(server.pending.logins), old(server.pending.telemetry)).logins,
        telemetry := Ask(old(sessionId), old(server.pending.logins), old(server.pending.telemetry)).replies)
      ensures server.requests == old(server.requests)
        + Requests(Ask(old(sessionId), old(server.pending.logins), old(server.pending.telemetry)).calls, TelemetryQuery([deviceId], keys, tsFrom, tsTo))
    {
      ghost var sid, logins, replies := sessionId, server.pending.logins, server.pending.telemetry;
      var q := TelemetryQuery([deviceId], keys, tsFrom, tsTo);
      var reply := server.PostTelemetry(sessionId, q);
      if !(reply.Answer? && reply.status != "OK") {
        AskEnds(sid, logins, replies, q);
      }
      match reply {
        case Unreachable => return Err(TransportError);
        case Undecodable => return Err(DecodeError);
        case Answer(status, data) =>
          if status != "OK" {
            var err := Login();
            if err.Some? {
              AskLoginFails(sid, logins, replies, q);
              return Err(err.value);
            }
            ghost var sent := server.requests;
            assert sent == old(server.requests) + [DataRequest(sid, q), LoginRequest];
            r := GetTelemetry(deviceId, keys, tsFrom, tsTo);
            AskRetries(sid, logins, replies, q);
            return;
          }
          var points := ToPointMap(data);
          return Ok(points);
      }
    }

    /** `GetLatestTelemetry`: the last day's points of several devices, `now` being the clock reading. */
    method GetLatestTelemetry(deviceIds: seq<string>, keys: seq<string>, now: int) returns (r: Result<map<string, seq<TelemetryPoint>>, ApiError>)
      modifies this, server
      decreases |server.pending.latest|, 1
      ensures r == Converted(Fetch(old(sessionId), old(server.pending.logins), old(server.pending.latest)).result)
      ensures sessionId == Fetch(old(sessionId), old(server.pending.logins), old(server.pending.latest)).sid
      ensures server.pending == old(server.pending).(
        logins := Fetch(old(sessionId), old(server.pending.logins), old(server.pending.latest)).logins,
        latest := Fetch(old(sessionId), old(server.pending.logins), old(server.pending.latest)).replies)
      ensures server.requests == old(server.requests)
        + Requests(Fetch(old(sessionId), old(server.pending.logins), old(server.pending.latest)).calls, LatestQuery(deviceIds, keys, now - 86400000, now))
    {
      ghost var sid, logins, replies := sessionId, server.pending.logins, server.pending.latest;
      ghost var q := LatestQuery(deviceIds, keys, now - 86400000, now);
      var err := EnsureSession();
      if err.Some? {
        FetchLoginFails(logins, replies, q);
        return Err(err.value);
      }
      if old(sessionId) == "" {
        FetchLogsIn(logins, replies, q);
      } else {
        FetchHasSession(sid, logins, replies);
      }
      r := AskLatestTelemetry(deviceIds, keys, now);
    }

    /** The part of `GetLatestTelemetry` after the session check: ask, and on a non-OK status log in again and start over. */
    method AskLatestTelemetry(deviceIds: seq<string>, keys: seq<string>, now: int) returns (r: Result<map<string, seq<TelemetryPoint>>, ApiError>)
      requires sessionId != ""
      modifies this, server
      decreases |server.pending.latest|, 0
      ensures r == Converted(Ask(old(sessionId), old(server.pending.logins), old(server.pending.latest)).result)
      ensures sessionId == Ask(old(sessionId), old(server.pending.logins), old(server.pending.latest)).sid
      ensures server.pending == old(server.pending).(
        logins := Ask(old(sessionId), old(server.pending.logins), old(server.pending.latest)).logins,
        latest := Ask(old(sessionId), old(server.pending.logins), old(server.pending.latest)).replies)
      ensures server.requests == old(server.requests)
        + Requests(Ask(old(sessionId), old(server.pending.logins), old(server.pending.latest)).calls, LatestQuery(deviceIds, keys, now - 86400000, now))
    {
      ghost var sid, logins, replies := sessionId, server.pending.logins, server.pending.latest;
      var q := LatestQuery(deviceIds, keys, now - 86400000, now);
      var reply := server.PostLatest(sessionId, q);
      if !(reply.Answer? && reply.status != "OK") {
        AskEnds(sid, logins, replies, q);
      }
      match reply {
        case Unreachable => return Err(TransportError);
        case Undecodable => return Err(DecodeError);
        case Answer(status, data) =>
          if status != "OK" {
            var err := Login();
            if err.Some? {
              AskLoginFails(sid, logins, replies, q);
              return Err(err.value);
            }
            ghost var sent := server.requests;
            assert sent == old(server.requests) + [DataRequest(sid, q), LoginRequest];
            r := GetLatestTelemetry(deviceIds, keys, now);
            AskRetries(sid, logins, replies, q);
            return;
          }
          var points := ToPointMap(data);
          return Ok(points);
      }
    }
  }
}
