/**
 * The EVSE switches. Each `is_on` is a reader of the coordinator snapshot;
 * each turn-on / turn-off is a command builder that yields a plan (nothing,
 * a form POST, or an exception raised before posting), run by
 * `Command.Execute` with or without the handler's `try ... except`.
 */
module Switch {
  import opened PyValue
  import opened Command

  const RestrictedMode := "restrictedMode"
  const EvseEnabled := "evseEnabled"
  const GroundCtrl := "groundCtrl"
  const AiMode := "aiMode"
  const OneCharge := "oneCharge"

  /** The keys of the three plain EVSE switches. */
  predicate SwitchKey(key: string) {
    key == GroundCtrl || key == RestrictedMode || key == EvseEnabled
  }

  /** The keys of the two simple switches. */
  predicate SimpleKey(key: string) {
    key == OneCharge || key == AiMode
  }

  // ------------------------------------------------------------ EVSESwitch

  /** `float(data.get("currentSet", 32))`; None when the conversion raises. */
  function CurrentLimit(snap: Dict): (n: Option<Num>)
    ensures "currentSet" !in snap ==> n == Some(NumOfInt(32))
    ensures n.Some? ==> ValidNum(n.value)
  {
    FloatOf(GetOr(snap, "currentSet", VInt(32)))
  }

  /**
   * `EVSESwitch.is_on`; None when reading it raises (restricted mode with a
   * current that does not convert to a float).
   */
  function SwitchIsOn(key: string, snap: Dict): (on: Option<bool>)
    ensures key == RestrictedMode ==> (on.Some? <==> CurrentLimit(snap).Some?)
    ensures key == RestrictedMode && on.Some? ==>
              (on.value <==> RealOf(CurrentLimit(snap).value) <= 16.0)
    ensures key == EvseEnabled ==> on == Some(!Truthy(Get(snap, EvseEnabled)))
    ensures key != RestrictedMode && key != EvseEnabled ==> on == Some(Truthy(Get(snap, key)))
  {
    if key == RestrictedMode then
      match CurrentLimit(snap)
      case Some(n) =>
        AtMostIsRealComparison(n, 16);
        Some(AtMost(n, 16))
      case None => None
    else if key == EvseEnabled then Some(!Truthy(Get(snap, EvseEnabled)))
    else Some(Truthy(Get(snap, key)))
  }

  /** `_send_event`: `key=1` or `key=0` to `/pageEvent`, with header pageEvent = key. */
  function EventRequest(host: string, key: string, state: bool): (r: Request)
    ensures r.url == HostUrl(host, "/pageEvent") && r.pageEvent == Some(key)
    ensures r.body == key + "=" + (if state then "1" else "0")
  {
    Request(HostUrl(host, "/pageEvent"), key + "=" + (if state then "1" else "0"), Some(key))
  }

  /** The request `_set_current_if_needed` posts: `currentSet={target}`. */
  function CurrentRequest(host: string, target: int): (r: Request)
    ensures r.url == HostUrl(host, "/pageEvent") && r.pageEvent == Some("currentSet")
    ensures r.body == "currentSet=" + IntToString(target)
  {
    Request(HostUrl(host, "/pageEvent"), "currentSet=" + IntToString(target), Some("currentSet"))
  }

  /**
   * `_set_current_if_needed`: post the target when the current is above it
   * (`onlyIfHigh`) or at most it (`onlyIfLow`), else do nothing. A current
   * that does not convert raises before anything is sent.
   */
  function SetCurrentIfNeeded(host: string, snap: Dict, target: int, onlyIfHigh: bool, onlyIfLow: bool)
    : (p: Plan)
    ensures p.Raise? <==> CurrentLimit(snap).None?
    ensures p.Send? ==> p.request == CurrentRequest(host, target)
    ensures CurrentLimit(snap).Some? ==>
              var current := RealOf(CurrentLimit(snap).value);
              (p.Send? <==> (onlyIfHigh && current > target as real) || (onlyIfLow && current <= target as real))
  {
    match CurrentLimit(snap)
    case None => Raise("float() of currentSet raised")
    case Some(n) =>
      AtMostIsRealComparison(n, target);
      if (onlyIfHigh && !AtMost(n, target)) || (onlyIfLow && AtMost(n, target))
      then Send(CurrentRequest(host, target))
      else Idle
  }

  /**
   * `EVSESwitch.async_turn_on`: restricted mode lowers a current above 12 to
   * 12; `evseEnabled` posts 0 (it is inverted); every other switch posts 1.
   */
  function TurnOn(host: string, key: string, snap: Dict): (p: Plan)
    ensures key != RestrictedMode ==> p == Send(EventRequest(host, key, key != EvseEnabled))
    ensures key == RestrictedMode ==> (p.Raise? <==> CurrentLimit(snap).None?)
    ensures key == RestrictedMode && CurrentLimit(snap).Some? ==>
              if RealOf(CurrentLimit(snap).value) > 12.0 then p == Send(CurrentRequest(host, 12))
              else p == Idle
  {
    if key == RestrictedMode then SetCurrentIfNeeded(host, snap, 12, true, false)
    else if key == EvseEnabled then Send(EventRequest(host, key, false))
    else Send(EventRequest(host, key, true))
  }

  /**
   * `EVSESwitch.async_turn_off`: restricted mode raises a current of at most
   * 16 to 16; `evseEnabled` posts 1; every other switch posts 0.
   */
  function TurnOff(host: string, key: string, snap: Dict): (p: Plan)
    ensures key != RestrictedMode ==> p == Send(EventRequest(host, key, key == EvseEnabled))
    ensures key == RestrictedMode ==> (p.Raise? <==> CurrentLimit(snap).None?)
    ensures key == RestrictedMode && CurrentLimit(snap).Some? ==>
              if RealOf(CurrentLimit(snap).value) <= 16.0 then p == Send(CurrentRequest(host, 16))
              else p == Idle
  {
    if key == RestrictedMode then SetCurrentIfNeeded(host, snap, 16, false, true)
    else if key == EvseEnabled then Send(EventRequest(host, key, true))
    else Send(EventRequest(host, key, false))
  }

  /** `_send_event` wraps its post in `try ... except Exception`; `_set_current_if_needed` does not. */
  predicate Caught(key: string) {
    key != RestrictedMode
  }

  /**
   * Turning restricted mode on posts `currentSet=12` exactly when the current
   * is above 12; otherwise nothing is sent and no refresh is requested.
   */
  lemma RestrictedOnSendsIffAbove12(host: string, snap: Dict, postRaises: bool)
    requires CurrentLimit(snap).Some?
    ensures var t := Execute(TurnOn(host, RestrictedMode, snap), Caught(RestrictedMode), postRaises);
            && (t.sent.Some? <==> RealOf(CurrentLimit(snap).value) > 12.0)
            && (t.sent.Some? ==> t.sent.value.body == "currentSet=12"
                                 && t.sent.value.pageEvent == Some("currentSet"))
            && (t.sent.None? ==> !t.followUp && !t.escaped)
  {
    assert IntToString(12) == "12";
  }

  /**
   * A current strictly between 12 and 16 already reads as restricted, yet
   * turning restricted mode on still posts `currentSet=12`.
   */
  lemma RestrictedOnStillPostsBetween12And16(host: string, snap: Dict)
    requires CurrentLimit(snap).Some?
    requires 12.0 < RealOf(CurrentLimit(snap).value) <= 16.0
    ensures SwitchIsOn(RestrictedMode, snap) == Some(true)
    ensures TurnOn(host, RestrictedMode, snap) == Send(CurrentRequest(host, 12))
  {
  }

  /**
   * Turning restricted mode off posts `currentSet=16` exactly when the current
   * is at most 16; with a larger current nothing is sent.
   */
  lemma RestrictedOffSendsIffAtMost16(host: string, snap: Dict)
    requires CurrentLimit(snap).Some?
    ensures var p := TurnOff(host, RestrictedMode, snap);
            && (p.Send? <==> RealOf(CurrentLimit(snap).value) <= 16.0)
            && (p.Send? ==> p.request.body == "currentSet=16")
            && (!p.Send? ==> p == Idle)
  {
    assert IntToString(16) == "16";
  }

  /** Once the device has stored a `currentSet` post, the snapshot holds the target as a number. */
  lemma CurrentEcho(host: string, snap: Dict, target: int)
    ensures Applied(snap, Send(CurrentRequest(host, target))) == snap["currentSet" := VInt(target)]
  {
    IntToStringPlain(target);
    assert "currentSet=" + IntToString(target) == "currentSet" + "=" + IntToString(target);
    EchoSingle(snap, "currentSet", IntToString(target));
    DeviceValueOfInt(target);
  }

  /**
   * After a successful turn-on the device holds a current of at most 12 and
   * the switch reads on, whether or not anything had to be sent.
   */
  lemma RestrictedOnSettles(host: string, snap: Dict)
    requires CurrentLimit(snap).Some?
    ensures SwitchIsOn(RestrictedMode, Applied(snap, TurnOn(host, RestrictedMode, snap))) == Some(true)
  {
    if TurnOn(host, RestrictedMode, snap).Send? {
      CurrentEcho(host, snap, 12);
      AtMostIsRealComparison(NumOfInt(12), 16);
    }
  }

  /**
   * Turning restricted mode off does not turn it off: the post sets the
   * current to 16, and 16 still reads as restricted.
   */
  lemma RestrictedOffLeavesOn(host: string, snap: Dict)
    requires SwitchIsOn(RestrictedMode, snap) == Some(true)
    ensures TurnOff(host, RestrictedMode, snap) == Send(CurrentRequest(host, 16))
    ensures SwitchIsOn(RestrictedMode, Applied(snap, TurnOff(host, RestrictedMode, snap))) == Some(true)
  {
    CurrentEcho(host, snap, 16);
    AtMostIsRealComparison(NumOfInt(16), 16);
  }

  /** A failed restricted-mode post is not caught: the exception leaves the handler, and no refresh is requested. */
  lemma RestrictedPostFailureEscapes(host: string, snap: Dict)
    requires TurnOn(host, RestrictedMode, snap).Send?
    ensures Execute(TurnOn(host, RestrictedMode, snap), Caught(RestrictedMode), true)
            == Trace(Some(CurrentRequest(host, 12)), false, true)
  {
  }

  /** `evseEnabled` is inverted: on sends `evseEnabled=0`, off sends `evseEnabled=1`. */
  lemma EvseEnabledInverted(host: string, snap: Dict)
    ensures SwitchIsOn(EvseEnabled, snap) == Some(!Truthy(Get(snap, EvseEnabled)))
    ensures TurnOn(host, EvseEnabled, snap).request.body == "evseEnabled=0"
    ensures TurnOff(host, EvseEnabled, snap).request.body == "evseEnabled=1"
  {
  }

  /**
   * For every plain switch other than restricted mode, the handler posts the
   * event and never lets an exception out; the refresh follows only a post
   * that returned.
   */
  lemma EventHandlersCatch(host: string, key: string, snap: Dict, on: bool, postRaises: bool)
    requires key != RestrictedMode
    ensures var p := if on then TurnOn(host, key, snap) else TurnOff(host, key, snap);
            var t := Execute(p, Caught(key), postRaises);
            && t.sent == Some(EventRequest(host, key, if key == EvseEnabled then !on else on))
            && t.followUp == !postRaises
            && !t.escaped
  {
  }

  /** After the device has stored the event, the switch reads the way it was set. */
  lemma EventSwitchSettles(host: string, key: string, snap: Dict, on: bool)
    requires SwitchKey(key) && key != RestrictedMode
    ensures var p := if on then TurnOn(host, key, snap) else TurnOff(host, key, snap);
            SwitchIsOn(key, Applied(snap, p)) == Some(on)
  {
    var state := if key == EvseEnabled then !on else on;
    var digit := if state then "1" else "0";
    var n := if state then 1 else 0;
    assert IntToString(n) == digit;
    DeviceValueOfInt(n);
    EchoSingle(snap, key, digit);
    var p := if on then TurnOn(host, key, snap) else TurnOff(host, key, snap);
    assert p == Send(EventRequest(host, key, state));
    assert Applied(snap, p) == snap[key := VInt(n)];
  }

  // ---------------------------------------------------- string truthiness

  /** `str(v).lower() in ["true", "1"]` */
  predicate TextTrue(v: Value) {
    var t := Lower(Str(v));
    t == "true" || t == "1"
  }

  lemma LowerOfIntToString(i: int)
    ensures Lower(IntToString(i)) == IntToString(i)
  {
    var n: nat := if i < 0 then -i else i;
    NatToStringDigits(n);
    var s := IntToString(i);
    forall k | 0 <= k < |s| ensures LowerChar(s[k]) == s[k] {
      if i < 0 && k > 0 {
        assert s[k] == NatToString(n)[k - 1];
      }
    }
  }

  /**
   * Which values read as true: the boolean True, the integer 1, and the
   * strings that lower-case to "true" or "1". None, False and every other
   * integer read false.
   */
  lemma TextTrueCases(v: Value)
    ensures TextTrue(v) <==>
            v == VBool(true) || v == VInt(1) || (v.VStr? && (Lower(v.s) == "true" || Lower(v.s) == "1"))
  {
    match v {
      case VNone =>
        assert Lower("None") == "none";
      case VBool(b) =>
        assert Lower("True") == "true" && Lower("False") == "false";
      case VInt(i) =>
        LowerOfIntToString(i);
        assert IntToString(1) == "1";
        if IntToString(i) == "1" {
          IntToStringInjective(i, 1);
        }
        IntToStringPlain(i);
        assert IntToString(i)[0] != 't';
      case VStr(s) =>
    }
  }

  // ------------------------------------------------- EVSEScheduleSwitch

  /**
   * `EVSEScheduleSwitch.is_on`: `str(isAlarm).lower()` is "true" or "1",
   * that is `True`, the integer 1, or text that lower-cases to one of the two.
   */
  function ScheduleIsOn(snap: Dict): (on: bool)
    ensures var v := Get(snap, "isAlarm");
            on <==> v == VBool(true) || v == VInt(1) || (v.VStr? && (Lower(v.s) == "true" || Lower(v.s) == "1"))
  {
    TextTrueCases(Get(snap, "isAlarm"));
    TextTrue(Get(snap, "isAlarm"))
  }

  /**
   * `EVSEScheduleSwitch._send`: with an empty snapshot nothing is sent;
   * otherwise a `/timer` post that sets `isAlarm` and echoes the three other
   * schedule fields as the snapshot holds them (`str()` of each, "None" when
   * absent).
   */
  function ScheduleSend(host: string, snap: Dict, state: int): (p: Plan)
    ensures snap == map[] <==> p == Idle
    ensures p.Send? ==> p.request.url == HostUrl(host, "/timer") && p.request.pageEvent == None
  {
    if snap == map[] then Idle
    else Send(Request(HostUrl(host, "/timer"),
                      TimerBody(if state == 1 then "true" else "false", Str(Get(snap, "startTime")),
                                Str(Get(snap, "stopTime")), Str(Get(snap, "timeZone"))),
                      None))
  }

  /**
   * The schedule `_send` wraps the post and the refresh in `try ... except
   * Exception`: nothing ever escapes, an empty snapshot sends nothing, and
   * the refresh follows only a post that returned.
   */
  lemma ScheduleSendCaught(host: string, snap: Dict, state: int, postRaises: bool)
    ensures var t := Execute(ScheduleSend(host, snap, state), true, postRaises);
            && !t.escaped
            && (t.sent.Some? <==> snap != map[])
            && (t.followUp <==> snap != map[] && !postRaises)
  {
  }

  /** The schedule body, as text: `isAlarm=true|false&startTime=…&stopTime=…&timeZone=…`. */
  lemma ScheduleBodyText(host: string, snap: Dict, state: int)
    requires snap != map[]
    ensures ScheduleSend(host, snap, state).request.body
            == "isAlarm=" + (if state == 1 then "true" else "false")
               + "&startTime=" + Str(Get(snap, "startTime"))
               + "&stopTime=" + Str(Get(snap, "stopTime"))
               + "&timeZone=" + Str(Get(snap, "timeZone"))
  {
    TimerBodyText(if state == 1 then "true" else "false", Str(Get(snap, "startTime")),
                  Str(Get(snap, "stopTime")), Str(Get(snap, "timeZone")));
  }

  /** The device reads the schedule body back as the four fields in order, the other three echoing the snapshot. */
  lemma ScheduleSendDecodes(host: string, snap: Dict, state: int)
    requires snap != map[]
    requires '&' !in Str(Get(snap, "startTime")) && '&' !in Str(Get(snap, "stopTime"))
    requires '&' !in Str(Get(snap, "timeZone"))
    ensures DecodeForm(ScheduleSend(host, snap, state).request.body)
            == [("isAlarm", if state == 1 then "true" else "false"),
                ("startTime", Str(Get(snap, "startTime"))),
                ("stopTime", Str(Get(snap, "stopTime"))),
                ("timeZone", Str(Get(snap, "timeZone")))]
  {
    TimerBodyDecodes(if state == 1 then "true" else "false", Str(Get(snap, "startTime")),
                     Str(Get(snap, "stopTime")), Str(Get(snap, "timeZone")));
  }

  /** Once the device has stored the schedule post, the switch reads as set. */
  lemma ScheduleSendSettles(host: string, snap: Dict, state: int)
    requires snap != map[]
    requires '&' !in Str(Get(snap, "startTime")) && '&' !in Str(Get(snap, "stopTime"))
    requires '&' !in Str(Get(snap, "timeZone"))
    ensures ScheduleIsOn(Applied(snap, ScheduleSend(host, snap, state))) <==> state == 1
  {
    ScheduleAlarmEcho(host, snap, state);
    LowerIdle(if state == 1 then "true" else "false");
  }

  /** The device stores the schedule post's `isAlarm` as the text "true" or "false". */
  lemma ScheduleAlarmEcho(host: string, snap: Dict, state: int)
    requires snap != map[]
    requires '&' !in Str(Get(snap, "startTime")) && '&' !in Str(Get(snap, "stopTime"))
    requires '&' !in Str(Get(snap, "timeZone"))
    ensures Get(Applied(snap, ScheduleSend(host, snap, state)), "isAlarm")
            == VStr(if state == 1 then "true" else "false")
  {
    var alarm := if state == 1 then "true" else "false";
    assert '&' !in alarm;
    TimerEcho(snap, alarm, Str(Get(snap, "startTime")), Str(Get(snap, "stopTime")), Str(Get(snap, "timeZone")));
    ParseIntRejectsWords();
  }

  // --------------------------------------------------- EVSESimpleSwitch

  /** The key a simple switch reads: `aiMode` reads `aiStatus`, every other its own key. */
  function ReadKey(key: string): string {
    if key == AiMode then "aiStatus" else key
  }

  /** `EVSESimpleSwitch.is_on`: the same text test as the schedule, on the key the switch reads. */
  function SimpleIsOn(key: string, snap: Dict): (on: bool)
    ensures var v := Get(snap, ReadKey(key));
            on <==> v == VBool(true) || v == VInt(1) || (v.VStr? && (Lower(v.s) == "true" || Lower(v.s) == "1"))
  {
    TextTrueCases(Get(snap, ReadKey(key)));
    TextTrue(Get(snap, ReadKey(key)))
  }

  /** `EVSESimpleSwitch._send`: `key={state}` to `/pageEvent`, header pageEvent = key, inside `try`. */
  function SimpleSend(host: string, key: string, state: int): (p: Plan)
    ensures p.Send? && p.request.url == HostUrl(host, "/pageEvent") && p.request.pageEvent == Some(key)
    ensures '=' !in key ==> DecodeField(p.request.body) == (key, IntToString(state))
  {
    assert '=' !in key ==> DecodeField(key + "=" + IntToString(state)) == (key, IntToString(state)) by {
      if '=' !in key {
        DecodeFieldPart((key, IntToString(state)));
      }
    }
    Send(Request(HostUrl(host, "/pageEvent"), key + "=" + IntToString(state), Some(key)))
  }

  /**
   * The simple `_send` wraps the post and the refresh in `try ... except
   * Exception`: the event is always posted, nothing escapes, and the refresh
   * follows only a post that returned.
   */
  lemma SimpleSendCaught(host: string, key: string, state: int, postRaises: bool)
    ensures var t := Execute(SimpleSend(host, key, state), true, postRaises);
            && t.sent == Some(Request(HostUrl(host, "/pageEvent"), key + "=" + IntToString(state), Some(key)))
            && !t.escaped
            && t.followUp == !postRaises
  {
  }

  /** Once the device has stored a simple switch's post, the snapshot holds the state under the written key. */
  lemma SimpleEcho(host: string, key: string, snap: Dict, state: int)
    requires SimpleKey(key)
    ensures Applied(snap, SimpleSend(host, key, state)) == snap[key := VInt(state)]
  {
    IntToStringPlain(state);
    EchoSingle(snap, key, IntToString(state));
    DeviceValueOfInt(state);
  }

  /**
   * `aiMode` writes `aiMode=1|0` but reads `aiStatus`: the stored `aiMode`
   * never changes what the switch shows, so echoing the post leaves the reading as it was.
   */
  lemma AiModeReadsStatusNotMode(host: string, snap: Dict, v: Value, state: int)
    ensures SimpleIsOn(AiMode, snap[AiMode := v]) == SimpleIsOn(AiMode, snap)
    ensures SimpleSend(host, AiMode, state).request.body == "aiMode=" + IntToString(state)
    ensures SimpleIsOn(AiMode, Applied(snap, SimpleSend(host, AiMode, state))) == SimpleIsOn(AiMode, snap)
  {
    SimpleEcho(host, AiMode, snap, state);
  }

  /** `oneCharge` reads its own key: storing the post makes it read as set. */
  lemma OneChargeSettles(host: string, snap: Dict, on: bool)
    ensures SimpleIsOn(OneCharge, Applied(snap, SimpleSend(host, OneCharge, if on then 1 else 0))) == on
  {
    SimpleEcho(host, OneCharge, snap, if on then 1 else 0);
    TextTrueCases(VInt(if on then 1 else 0));
  }
}
