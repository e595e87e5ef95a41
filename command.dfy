/**
 * The write path shared by every writable EVSE entity: a form-encoded POST to
 * the charger, then (if the post returned) the follow-up statements, of which
 * the first is always the coordinator's refresh request.
 */
module Command {
  import opened PyValue

  /**
   * A POST with Content-Type application/x-www-form-urlencoded: the URL, the
   * body and the optional `pageEvent` header.
   */
  datatype Request = Request(url: string, body: string, pageEvent: Option<string>)

  type Field = (string, string)

  /** `http://{host}{path}` */
  function HostUrl(host: string, path: string): string {
    "http://" + host + path
  }

  function FieldPart(f: Field): string {
    f.0 + "=" + f.1
  }

  /** `k1=v1&k2=v2&...`, the way the entities lay out their bodies (no percent-escaping). */
  function EncodeForm(fields: seq<Field>): string
    requires |fields| >= 1
  {
    Join(seq(|fields|, i requires 0 <= i < |fields| => FieldPart(fields[i])), '&')
  }

  /** A `key=value` part: the key ends at the first `=`. */
  function DecodeField(part: string): Field {
    var kv := Split(part, '=');
    if |kv| == 1 then (part, "") else (kv[0], Join(kv[1..], '='))
  }

  /** How the device reads a form body back into fields. */
  function DecodeForm(body: string): seq<Field> {
    var parts := Split(body, '&');
    seq(|parts|, i requires 0 <= i < |parts| => DecodeField(parts[i]))
  }

  /** The fields can be told apart in the body: no `&` anywhere, no `=` in a key. */
  predicate FormSafe(fields: seq<Field>) {
    forall i :: 0 <= i < |fields| ==>
      '&' !in fields[i].0 && '=' !in fields[i].0 && '&' !in fields[i].1
  }

  lemma DecodeFieldPart(f: Field)
    requires '=' !in f.0
    ensures DecodeField(FieldPart(f)) == f
  {
    assert FieldPart(f) == f.0 + ['='] + f.1;
    SplitAppend(f.0, '=', f.1);
    JoinSplit(f.1, '=');
    var kv := Split(FieldPart(f), '=');
    assert kv[1..] == Split(f.1, '=');
  }

  /** Decoding a body gives back exactly the fields that were encoded, in order. */
  lemma DecodeEncode(fields: seq<Field>)
    requires |fields| >= 1 && FormSafe(fields)
    ensures DecodeForm(EncodeForm(fields)) == fields
  {
    var parts := seq(|fields|, i requires 0 <= i < |fields| => FieldPart(fields[i]));
    forall i | 0 <= i < |parts| ensures '&' !in parts[i] {
      assert parts[i] == fields[i].0 + "=" + fields[i].1;
    }
    SplitJoin(parts, '&');
    forall i | 0 <= i < |fields| ensures DecodeField(parts[i]) == fields[i] {
      DecodeFieldPart(fields[i]);
    }
  }

  function TimerFields(isAlarm: string, startTime: string, stopTime: string, timeZone: string): seq<Field> {
    [("isAlarm", isAlarm), ("startTime", startTime), ("stopTime", stopTime), ("timeZone", timeZone)]
  }

  /**
   * The `/timer` body of the schedule switch, the time fields and the
   * time-zone select: always these four fields, in this order.
   */
  function TimerBody(isAlarm: string, startTime: string, stopTime: string, timeZone: string): string {
    EncodeForm(TimerFields(isAlarm, startTime, stopTime, timeZone))
  }

  lemma JoinFour(p0: string, p1: string, p2: string, p3: string, c: char)
    ensures Join([p0, p1, p2, p3], c) == p0 + [c] + p1 + [c] + p2 + [c] + p3
  {
    var parts := [p0, p1, p2, p3];
    assert parts[1..] == [p1, p2, p3] && parts[1..][1..] == [p2, p3];
    assert parts[1..][1..][1..] == [p3];
    assert Join([p3], c) == p3;
    assert Join([p2, p3], c) == p2 + [c] + p3;
    assert Join([p1, p2, p3], c) == p1 + [c] + (p2 + [c] + p3);
    assert Join(parts, c) == p0 + [c] + (p1 + [c] + (p2 + [c] + p3));
  }

  /** Gluing one more `key=value` part on after a separator, regrouped. */
  lemma Glue(x: string, c: char, key: string, v: string)
    ensures x + [c] + (key + "=" + v) == x + ([c] + key + "=") + v
  {
    assert x + [c] + (key + "=" + v) == x + ([c] + key + "=") + v by {
      var lhs, rhs := x + [c] + (key + "=" + v), x + ([c] + key + "=") + v;
      assert |lhs| == |rhs|;
      forall k | 0 <= k < |lhs| ensures lhs[k] == rhs[k] {
      }
    }
  }

  /** The timer body is the text `isAlarm=…&startTime=…&stopTime=…&timeZone=…`. */
  lemma TimerBodyText(isAlarm: string, startTime: string, stopTime: string, timeZone: string)
    ensures TimerBody(isAlarm, startTime, stopTime, timeZone)
            == "isAlarm=" + isAlarm + "&startTime=" + startTime + "&stopTime=" + stopTime
               + "&timeZone=" + timeZone
  {
    var fields := TimerFields(isAlarm, startTime, stopTime, timeZone);
    var parts := seq(|fields|, i requires 0 <= i < |fields| => FieldPart(fields[i]));
    var p0, p1, p2, p3 := FieldPart(fields[0]), FieldPart(fields[1]), FieldPart(fields[2]), FieldPart(fields[3]);
    assert parts == [p0, p1, p2, p3];
    JoinFour(p0, p1, p2, p3, '&');
    assert "isAlarm" + "=" == "isAlarm=";
    assert p0 == "isAlarm=" + isAlarm;
    var x1 := p0 + ['&'] + p1;
    Glue(p0, '&', "startTime", startTime);
    assert ['&'] + "startTime" + "=" == "&startTime=";
    var x2 := x1 + ['&'] + p2;
    Glue(x1, '&', "stopTime", stopTime);
    assert ['&'] + "stopTime" + "=" == "&stopTime=";
    Glue(x2, '&', "timeZone", timeZone);
    assert ['&'] + "timeZone" + "=" == "&timeZone=";
  }

  /** The device reads a timer body back as its four fields when no value holds an `&`. */
  lemma TimerBodyDecodes(isAlarm: string, startTime: string, stopTime: string, timeZone: string)
    requires '&' !in isAlarm && '&' !in startTime && '&' !in stopTime && '&' !in timeZone
    ensures DecodeForm(TimerBody(isAlarm, startTime, stopTime, timeZone))
            == TimerFields(isAlarm, startTime, stopTime, timeZone)
  {
    var fields := TimerFields(isAlarm, startTime, stopTime, timeZone);
    assert FormSafe(fields) by {
      assert forall i :: 0 <= i < 4 ==> fields[i].0 in ["isAlarm", "startTime", "stopTime", "timeZone"];
    }
    DecodeEncode(fields);
  }

  /** How a device that stores what it is sent would read a form value back. */
  function DeviceValue(text: string): Value {
    match ParseInt(text)
    case Some(i) => VInt(i)
    case None => VStr(text)
  }

  /** The snapshot after the device has stored the fields of a request, in order. */
  function Echo(snap: Dict, fields: seq<Field>): Dict
    decreases |fields|
  {
    if fields == [] then snap
    else Echo(snap[fields[0].0 := DeviceValue(fields[0].1)], fields[1..])
  }

  /** A numeral the device stores reads back as that number. */
  lemma DeviceValueOfInt(i: int)
    ensures DeviceValue(IntToString(i)) == VInt(i)
  {
    ParseIntOfIntToString(i);
  }

  /** A one-field body `key=value` decodes to that single field. */
  lemma SingleFieldDecodes(key: string, value: string)
    requires '=' !in key && '&' !in key && '&' !in value
    ensures DecodeForm(key + "=" + value) == [(key, value)]
  {
    var fields := [(key, value)];
    assert EncodeForm(fields) == key + "=" + value;
    DecodeEncode(fields);
  }

  /** Storing a one-field body sets that key alone. */
  lemma EchoSingle(snap: Dict, key: string, value: string)
    requires '=' !in key && '&' !in key && '&' !in value
    ensures Echo(snap, DecodeForm(key + "=" + value)) == snap[key := DeviceValue(value)]
  {
    SingleFieldDecodes(key, value);
    assert [(key, value)][1..] == [];
  }

  /** Storing fields leaves every key none of them names as it was. */
  lemma {:induction false} EchoKeeps(snap: Dict, fields: seq<Field>, key: string)
    requires forall i :: 0 <= i < |fields| ==> fields[i].0 != key
    ensures Get(Echo(snap, fields), key) == Get(snap, key)
    decreases |fields|
  {
    if fields != [] {
      EchoKeeps(snap[fields[0].0 := DeviceValue(fields[0].1)], fields[1..], key);
    }
  }

  /** A key reads back as the value of the last field that names it. */
  lemma {:induction false} EchoReads(snap: Dict, fields: seq<Field>, i: nat)
    requires i < |fields|
    requires forall j :: i < j < |fields| ==> fields[j].0 != fields[i].0
    ensures Get(Echo(snap, fields), fields[i].0) == DeviceValue(fields[i].1)
    decreases i
  {
    var s1 := snap[fields[0].0 := DeviceValue(fields[0].1)];
    if i == 0 {
      EchoKeeps(s1, fields[1..], fields[0].0);
    } else {
      EchoReads(s1, fields[1..], i - 1);
    }
  }

  /** Once the device has stored a `/timer` body, each of its four keys reads back as what was sent. */
  lemma TimerEcho(snap: Dict, isAlarm: string, startTime: string, stopTime: string, timeZone: string)
    requires '&' !in isAlarm && '&' !in startTime && '&' !in stopTime && '&' !in timeZone
    ensures var after := Echo(snap, DecodeForm(TimerBody(isAlarm, startTime, stopTime, timeZone)));
            && Get(after, "isAlarm") == DeviceValue(isAlarm)
            && Get(after, "startTime") == DeviceValue(startTime)
            && Get(after, "stopTime") == DeviceValue(stopTime)
            && Get(after, "timeZone") == DeviceValue(timeZone)
  {
    var fields := TimerFields(isAlarm, startTime, stopTime, timeZone);
    TimerBodyDecodes(isAlarm, startTime, stopTime, timeZone);
    EchoReads(snap, fields, 0);
    EchoReads(snap, fields, 1);
    EchoReads(snap, fields, 2);
    EchoReads(snap, fields, 3);
  }

  /** The snapshot the next poll would return once the device has stored what a plan sent. */
  function Applied(snap: Dict, plan: Plan): (after: Dict)
    ensures !plan.Send? ==> after == snap
  {
    match plan
    case Send(r) => Echo(snap, DecodeForm(r.body))
    case _ => snap
  }

  /** What a write handler decided to do before touching the network. */
  datatype Plan =
    | Idle                  // nothing to send: no request, no refresh
    | Send(request: Request)
    | Raise(reason: string) // an exception before the post (a failed conversion)

  /**
   * What happened: the request that was attempted, whether the statements
   * after the post (refresh request, state write) ran, and whether an
   * exception left the handler.
   */
  datatype Trace = Trace(sent: Option<Request>, followUp: bool, escaped: bool)

  /**
   * Runs a plan whose post either returns or raises. `caught` says whether the
   * handler wraps the post in `try ... except Exception`.
   */
  function Execute(plan: Plan, caught: bool, postRaises: bool): (t: Trace)
    ensures t.sent.Some? <==> plan.Send?
    ensures plan.Send? ==> t.sent == Some(plan.request)
    ensures t.followUp <==> plan.Send? && !postRaises
    ensures t.escaped <==> plan.Raise? || (plan.Send? && postRaises && !caught)
  {
    match plan
    case Idle => Trace(None, false, false)
    case Raise(_) => Trace(None, false, true)
    case Send(r) => Trace(Some(r), !postRaises, postRaises && !caught)
  }
}
