/**
 * The EVSE polling coordinator: each cycle posts to `/init` and then to
 * `/main`, keeps the JSON of every endpoint that answered properly, records
 * one error per endpoint that did not, and merges the two payloads with
 * `/main` winning on shared keys. An empty merge fails the cycle, and a
 * decoded body that is not a JSON object makes the merge itself raise.
 */
module Coordinator {
  import opened PyValue

  const DefaultScanInterval := 10
  const DefaultDeviceName := "Eveus Pro"
  const ConfDeviceName := "device_name"
  const ConfUpdateRate := "update_rate"

  /**
   * What `resp.json()` yields on a response: an object, some other JSON
   * value (a list, a string, a number, `null`), or a decode error.
   */
  datatype Json = Object(fields: Dict) | NonObject(reason: string) | Malformed(reason: string)

  datatype Response = Response(status: int, contentType: Option<string>, json: Json)

  /** The result of one POST: a response, or the exception the client raised. */
  datatype Outcome = Responded(response: Response) | Raised(reason: string)

  /**
   * A cycle returns the merged snapshot, raises UpdateFailed, or crashes in
   * the merge `{**init_data, **main_data}` because a decoded body was not an
   * object (a TypeError that no handler of the cycle catches).
   */
  datatype CycleResult = Data(snapshot: Dict) | UpdateFailed(message: string) | MergeRaised

  /** `headers.get("Content-Type", "")` */
  function ContentTypeOrEmpty(r: Response): string {
    match r.contentType
    case Some(ct) => ct
    case None => ""
  }

  /** An endpoint counts only on status 200 with a JSON Content-Type. */
  predicate Acceptable(r: Response) {
    r.status == 200 && Contains(ContentTypeOrEmpty(r), "application/json")
  }

  function InvalidResponseMessage(endpoint: string, r: Response): string {
    endpoint + " invalid response: status=" + IntToString(r.status) + ", content_type="
    + (match r.contentType case Some(ct) => ct case None => "None")
  }

  function RequestErrorMessage(endpoint: string, reason: string): string {
    endpoint + " request error: " + reason
  }

  /**
   * One endpoint's contribution to a cycle. `nonMapping` records that the
   * endpoint's variable was left holding a decoded value that is not an
   * object: its `.items()` raised (the error), and the merge will raise too.
   */
  datatype Fetched = Fetched(payload: Dict, error: Option<string>, nonMapping: bool)

  /**
   * The per-endpoint step of a cycle: the payload stays empty unless the
   * response is acceptable and decodes to an object; otherwise exactly one
   * error is recorded, naming the endpoint.
   */
  function Fetch(endpoint: string, o: Outcome): (f: Fetched)
    ensures f.error.None? <==> o.Responded? && Acceptable(o.response) && o.response.json.Object?
    ensures f.error.None? ==> f.payload == o.response.json.fields
    ensures f.error.Some? ==> f.payload == map[]
    ensures f.nonMapping <==> o.Responded? && Acceptable(o.response) && o.response.json.NonObject?
    ensures o.Raised? ==> f.error == Some(RequestErrorMessage(endpoint, o.reason))
    ensures o.Responded? && !Acceptable(o.response) ==>
              f.error == Some(InvalidResponseMessage(endpoint, o.response))
    ensures o.Responded? && Acceptable(o.response) && !o.response.json.Object? ==>
              f.error == Some(RequestErrorMessage(endpoint, o.response.json.reason))
  {
    match o
    case Raised(reason) => Fetched(map[], Some(RequestErrorMessage(endpoint, reason)), false)
    case Responded(r) =>
      if !Acceptable(r) then Fetched(map[], Some(InvalidResponseMessage(endpoint, r)), false)
      else match r.json
        case Object(fields) => Fetched(fields, None, false)
        case NonObject(reason) => Fetched(map[], Some(RequestErrorMessage(endpoint, reason)), true)
        case Malformed(reason) => Fetched(map[], Some(RequestErrorMessage(endpoint, reason)), false)
  }

  function ErrorsOf(f: Fetched): seq<string> {
    match f.error
    case Some(e) => [e]
    case None => []
  }

  const NoDataPrefix := "Coordinator update failed: no data returned. "

  function FailureMessage(errors: seq<string>): string {
    NoDataPrefix + (if errors == [] then "no additional error details" else JoinWith(errors, "; "))
  }

  /**
   * The whole cycle, as a function of the two endpoints' outcomes: a body
   * that is not an object crashes the merge, an empty merge fails with the
   * "no data returned" message, and anything else is the merged snapshot.
   */
  function Cycle(init: Outcome, main: Outcome): (r: CycleResult)
    ensures r.MergeRaised? <==> Fetch("/init", init).nonMapping || Fetch("/main", main).nonMapping
    ensures r.Data? ==> r.snapshot != map[]
    ensures r.UpdateFailed? ==>
              |NoDataPrefix| <= |r.message| && r.message[..|NoDataPrefix|] == NoDataPrefix
  {
    var i := Fetch("/init", init);
    var m := Fetch("/main", main);
    if i.nonMapping || m.nonMapping then MergeRaised
    else
      var data := i.payload + m.payload;
      if data == map[] then UpdateFailed(FailureMessage(ErrorsOf(i) + ErrorsOf(m)))
      else Data(data)
  }

  /**
   * `_async_update_data`, step by step: fill the two payload variables,
   * append errors, merge. A variable holds the decoded body whenever the
   * decode succeeded, even when the body is not an object.
   */
  method UpdateData(init: Outcome, main: Outcome) returns (r: CycleResult)
    ensures r == Cycle(init, main)
  {
    var initData: Json := Object(map[]);
    var mainData: Json := Object(map[]);
    var errors: seq<string> := [];

    match init {
      case Raised(reason) =>
        errors := errors + [RequestErrorMessage("/init", reason)];
      case Responded(resp) =>
        if Acceptable(resp) {
          match resp.json {
            case Object(_) => initData := resp.json;
            case NonObject(reason) =>
              // assigned, then `.items()` raises
              initData := resp.json;
              errors := errors + [RequestErrorMessage("/init", reason)];
            case Malformed(reason) =>
              // `json()` raises before the assignment
              errors := errors + [RequestErrorMessage("/init", reason)];
          }
        } else {
          errors := errors + [InvalidResponseMessage("/init", resp)];
        }
    }

    match main {
      case Raised(reason) =>
        errors := errors + [RequestErrorMessage("/main", reason)];
      case Responded(resp) =>
        if Acceptable(resp) {
          match resp.json {
            case Object(_) => mainData := resp.json;
            case NonObject(reason) =>
              mainData := resp.json;
              errors := errors + [RequestErrorMessage("/main", reason)];
            case Malformed(reason) =>
              errors := errors + [RequestErrorMessage("/main", reason)];
          }
        } else {
          errors := errors + [InvalidResponseMessage("/main", resp)];
        }
    }

    if !initData.Object? || !mainData.Object? {
      r := MergeRaised;
    } else {
      var data := initData.fields + mainData.fields;
      if data == map[] {
        r := UpdateFailed(FailureMessage(errors));
      } else {
        r := Data(data);
      }
    }
  }

  /**
   * A successful cycle's snapshot is `/init` overridden key by key by
   * `/main`: every key of either payload, `/main`'s value on collisions.
   */
  lemma MainWinsOnCollision(init: Outcome, main: Outcome)
    requires Cycle(init, main).Data?
    ensures var s := Cycle(init, main).snapshot;
            var ip := Fetch("/init", init).payload;
            var mp := Fetch("/main", main).payload;
            && s.Keys == ip.Keys + mp.Keys
            && (forall k :: k in mp ==> s[k] == mp[k])
            && (forall k :: k in ip && k !in mp ==> s[k] == ip[k])
  {
  }

  /**
   * A cycle fails with UpdateFailed exactly when neither endpoint
   * contributed a key and neither body crashes the merge.
   */
  lemma FailsIffNothingFetched(init: Outcome, main: Outcome)
    ensures Cycle(init, main).UpdateFailed? <==>
            && !Fetch("/init", init).nonMapping && !Fetch("/main", main).nonMapping
            && Fetch("/init", init).payload == map[] && Fetch("/main", main).payload == map[]
  {
    var ip := Fetch("/init", init).payload;
    var mp := Fetch("/main", main).payload;
    if ip != map[] {
      var k :| k in ip;
      assert k in ip + mp;
    }
    if mp != map[] {
      var k :| k in mp;
      assert k in ip + mp;
    }
  }

  /**
   * A non-object body on `/init` is recorded as a request error, yet the
   * cycle still crashes in the merge even when `/main` answered properly.
   */
  lemma NonObjectBodyCrashesCycle(reason: string, ct: string, fields: Dict)
    requires Contains(ct, "application/json")
    ensures var ok := Responded(Response(200, Some(ct), Object(fields)));
            var bad := Responded(Response(200, Some(ct), NonObject(reason)));
            && Fetch("/init", bad).error == Some(RequestErrorMessage("/init", reason))
            && Cycle(bad, ok) == MergeRaised
            && Cycle(ok, bad) == MergeRaised
  {
    var ok := Responded(Response(200, Some(ct), Object(fields)));
    var bad := Responded(Response(200, Some(ct), NonObject(reason)));
    assert Acceptable(ok.response) && Acceptable(bad.response);
  }

  /**
   * A failure on `/init` other than a non-object body is recorded and
   * `/main` is still attempted: a good non-empty `/main` alone makes the
   * cycle succeed with its payload.
   */
  lemma InitFailureDoesNotStopMain(init: Outcome, ct: string, fields: Dict)
    requires Fetch("/init", init).error.Some? && !Fetch("/init", init).nonMapping
    requires Contains(ct, "application/json")
    requires fields != map[]
    ensures Cycle(init, Responded(Response(200, Some(ct), Object(fields)))) == Data(fields)
  {
    var main := Responded(Response(200, Some(ct), Object(fields)));
    assert Acceptable(main.response);
    assert map[] + fields == fields;
  }

  lemma TwoErrorsMessage(a: string, b: string)
    ensures FailureMessage([a, b]) == NoDataPrefix + a + "; " + b
  {
    assert [a, b] != [];
    assert [a, b][1..] == [b];
    assert JoinWith([b], "; ") == b;
    assert JoinWith([a, b], "; ") == a + "; " + b;
    assert NoDataPrefix + (a + "; " + b) == NoDataPrefix + a + "; " + b;
  }

  /**
   * Both endpoints failed without a non-object body: the message names
   * `/init`'s error, then `/main`'s.
   */
  lemma BothFailedMessage(init: Outcome, main: Outcome)
    requires Fetch("/init", init).error.Some? && Fetch("/main", main).error.Some?
    requires !Fetch("/init", init).nonMapping && !Fetch("/main", main).nonMapping
    ensures Cycle(init, main) ==
            UpdateFailed(NoDataPrefix + Fetch("/init", init).error.value + "; "
                         + Fetch("/main", main).error.value)
  {
    var i := Fetch("/init", init);
    var m := Fetch("/main", main);
    assert i.payload + m.payload == map[];
    assert ErrorsOf(i) + ErrorsOf(m) == [i.error.value, m.error.value];
    TwoErrorsMessage(i.error.value, m.error.value);
  }

  /** Both endpoints answered with empty objects: a failure without details. */
  lemma EmptyPayloadsMessage(init: Outcome, main: Outcome)
    requires Fetch("/init", init) == Fetched(map[], None, false)
    requires Fetch("/main", main) == Fetched(map[], None, false)
    ensures Cycle(init, main) ==
            UpdateFailed("Coordinator update failed: no data returned. no additional error details")
  {
    assert ErrorsOf(Fetch("/init", init)) + ErrorsOf(Fetch("/main", main)) == [];
    assert NoDataPrefix + "no additional error details"
           == "Coordinator update failed: no data returned. no additional error details";
  }

  /** Each endpoint adds at most one error, `/init`'s before `/main`'s. */
  lemma ErrorsInEndpointOrder(init: Outcome, main: Outcome)
    requires Cycle(init, main).UpdateFailed?
    ensures var errors := ErrorsOf(Fetch("/init", init)) + ErrorsOf(Fetch("/main", main));
            && |errors| <= 2
            && Cycle(init, main).message == FailureMessage(errors)
            && (Fetch("/init", init).error.Some? ==> errors[0] == Fetch("/init", init).error.value)
            && (Fetch("/main", main).error.Some? ==> errors[|errors| - 1] == Fetch("/main", main).error.value)
  {
  }

  // -------------------------------------------------------- construction

  /** The device name: options first, then the entry's data, then "Eveus Pro". */
  function DeviceName(options: Dict, data: Dict): (name: Value)
    ensures ConfDeviceName in options ==> name == options[ConfDeviceName]
    ensures ConfDeviceName !in options && ConfDeviceName in data ==> name == data[ConfDeviceName]
    ensures ConfDeviceName !in options && ConfDeviceName !in data ==> name == VStr(DefaultDeviceName)
  {
    GetOr(options, ConfDeviceName, GetOr(data, ConfDeviceName, VStr(DefaultDeviceName)))
  }

  /** The poll interval in seconds: `options["update_rate"]`, else 10; the entry's data is not consulted. */
  function UpdateInterval(options: Dict): (seconds: Value)
    ensures ConfUpdateRate in options ==> seconds == options[ConfUpdateRate]
    ensures ConfUpdateRate !in options ==> seconds == VInt(DefaultScanInterval)
  {
    GetOr(options, ConfUpdateRate, VInt(DefaultScanInterval))
  }
}
