/**
 * The schedule's start and stop time fields: each shows the snapshot's
 * value as text, and setting one posts the whole `/timer` form with that
 * field replaced and the others taken from the snapshot.
 */
module TimeField {
  import opened PyValue
  import opened Command

  /** The keys of the two time fields. */
  predicate TimeKey(key: string) {
    key == "startTime" || key == "stopTime"
  }

  /** `EVSETimeField.native_value`: `str(value)`, or None when the key is missing or None. */
  function TimeValue(key: string, snap: Dict): (r: Option<string>)
    ensures key !in snap ==> r == None
    ensures key in snap && snap[key] == VNone ==> r == None
    ensures key in snap && snap[key] != VNone ==> r == Some(Str(snap[key]))
  {
    var value := Get(snap, key);
    if value == VNone then None else Some(Str(value))
  }

  /**
   * The `updated` dictionary of `async_set_value`: the four schedule fields
   * of a copy of the snapshot (with their defaults), `isAlarm` lower-cased,
   * and then the edited key set to the new text.
   */
  function Updated(key: string, value: string, snap: Dict): (u: Dict)
    ensures key in u && u[key] == VStr(value)
    ensures {"startTime", "stopTime", "timeZone", "isAlarm"} <= u.Keys
    ensures key != "startTime" ==> u["startTime"] == GetOr(snap, "startTime", VStr("00:00"))
    ensures key != "stopTime" ==> u["stopTime"] == GetOr(snap, "stopTime", VStr("00:00"))
    ensures key != "timeZone" ==> u["timeZone"] == GetOr(snap, "timeZone", VInt(0))
    ensures key != "isAlarm" ==> u["isAlarm"] == VStr(Lower(Str(GetOr(snap, "isAlarm", VStr("false")))))
  {
    map[
      "startTime" := GetOr(snap, "startTime", VStr("00:00")),
      "stopTime" := GetOr(snap, "stopTime", VStr("00:00")),
      "timeZone" := GetOr(snap, "timeZone", VInt(0)),
      "isAlarm" := VStr(Lower(Str(GetOr(snap, "isAlarm", VStr("false")))))
    ][key := VStr(value)]
  }

  /** The `/timer` post `async_set_value` makes; its `try` also covers the refresh and the state write. */
  function SetValue(host: string, key: string, value: string, snap: Dict): (p: Plan)
    ensures p.Send? && p.request.url == HostUrl(host, "/timer") && p.request.pageEvent == None
  {
    var u := Updated(key, value, snap);
    Send(Request(HostUrl(host, "/timer"),
                 TimerBody(Str(u["isAlarm"]), Str(u["startTime"]), Str(u["stopTime"]), Str(u["timeZone"])),
                 None))
  }

  /**
   * The body carries the four fields in the fixed order; only the edited
   * field takes the new value, the other time field and the time zone come
   * from the snapshot (or their defaults), and `isAlarm` is sent lower-cased.
   */
  lemma SetValueFields(host: string, key: string, value: string, snap: Dict)
    requires TimeKey(key)
    requires '&' !in value
    requires '&' !in Str(GetOr(snap, "startTime", VStr("00:00")))
    requires '&' !in Str(GetOr(snap, "stopTime", VStr("00:00")))
    requires '&' !in Str(GetOr(snap, "timeZone", VInt(0)))
    requires '&' !in Str(GetOr(snap, "isAlarm", VStr("false")))
    ensures var fields := DecodeForm(SetValue(host, key, value, snap).request.body);
            && |fields| == 4
            && fields[0] == ("isAlarm", Lower(Str(GetOr(snap, "isAlarm", VStr("false")))))
            && fields[1] == ("startTime", if key == "startTime" then value
                                          else Str(GetOr(snap, "startTime", VStr("00:00"))))
            && fields[2] == ("stopTime", if key == "stopTime" then value
                                         else Str(GetOr(snap, "stopTime", VStr("00:00"))))
            && fields[3] == ("timeZone", Str(GetOr(snap, "timeZone", VInt(0))))
            && NoUpper(fields[0].1)
  {
    var u := Updated(key, value, snap);
    var alarm := Str(GetOr(snap, "isAlarm", VStr("false")));
    assert '&' !in Lower(alarm) by {
      assert forall k :: 0 <= k < |alarm| ==> LowerChar(alarm[k]) != '&' || alarm[k] == '&';
    }
    TimerBodyDecodes(Str(u["isAlarm"]), Str(u["startTime"]), Str(u["stopTime"]), Str(u["timeZone"]));
    LowerIsLower(alarm);
  }

  /** The body, as text: `isAlarm=…&startTime=…&stopTime=…&timeZone=…`. */
  lemma SetValueText(host: string, key: string, value: string, snap: Dict)
    ensures var u := Updated(key, value, snap);
            SetValue(host, key, value, snap).request.body
            == "isAlarm=" + Str(u["isAlarm"]) + "&startTime=" + Str(u["startTime"])
               + "&stopTime=" + Str(u["stopTime"]) + "&timeZone=" + Str(u["timeZone"])
  {
    var u := Updated(key, value, snap);
    TimerBodyText(Str(u["isAlarm"]), Str(u["startTime"]), Str(u["stopTime"]), Str(u["timeZone"]));
  }

  /** A failed post is caught: nothing escapes, and neither refresh nor state write follows. */
  lemma SetValueFailureCaught(host: string, key: string, value: string, snap: Dict)
    ensures Execute(SetValue(host, key, value, snap), true, true)
            == Trace(Some(SetValue(host, key, value, snap).request), false, false)
  {
  }

  /** Clock text `HH:MM`. */
  predicate ClockText(s: string) {
    |s| == 5 && IsDigit(s[0]) && IsDigit(s[1]) && s[2] == ':' && IsDigit(s[3]) && IsDigit(s[4])
  }

  /** Clock text holds no `&` and is not an integer literal, so the device keeps it as text. */
  lemma ClockTextIsText(s: string)
    requires ClockText(s)
    ensures '&' !in s && ParseInt(s) == None
  {
    assert forall k :: 0 <= k < |s| ==> IsDigit(s[k]) || s[k] == ':';
    assert !IsSpace(s[0]) && !IsSpace(s[4]);
    StripIdle(s);
    assert !IsDigit(s[2]);
  }

  /** Once the device has stored the post, the edited field reads back as the text that was set. */
  lemma SetValueSettles(host: string, key: string, value: string, snap: Dict)
    requires TimeKey(key) && ClockText(value)
    requires '&' !in Str(GetOr(snap, "startTime", VStr("00:00")))
    requires '&' !in Str(GetOr(snap, "stopTime", VStr("00:00")))
    requires '&' !in Str(GetOr(snap, "timeZone", VInt(0)))
    requires '&' !in Str(GetOr(snap, "isAlarm", VStr("false")))
    ensures TimeValue(key, Applied(snap, SetValue(host, key, value, snap))) == Some(value)
  {
    ClockTextIsText(value);
    var u := Updated(key, value, snap);
    var alarm := Str(GetOr(snap, "isAlarm", VStr("false")));
    assert '&' !in Lower(alarm) by {
      assert forall k :: 0 <= k < |alarm| ==> LowerChar(alarm[k]) != '&' || alarm[k] == '&';
    }
    TimerEcho(snap, Str(u["isAlarm"]), Str(u["startTime"]), Str(u["stopTime"]), Str(u["timeZone"]));
  }
}
