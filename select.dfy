/**
 * The two selects: the charger's time zone (read once from the snapshot,
 * written through `/timer`) and the poll rate (written into the config
 * entry's options).
 */
module Select {
  import opened PyValue
  import opened Command
  import Switch
  import TimeField
  import Coordinator

  /** `[str(i) for i in range(lo, hi)]` */
  function RangeText(lo: int, hi: int): (r: seq<string>)
    ensures |r| == if lo < hi then hi - lo else 0
    decreases hi - lo
  {
    if lo >= hi then [] else [IntToString(lo)] + RangeText(lo + 1, hi)
  }

  lemma {:induction false} RangeTextAt(lo: int, hi: int, k: nat)
    requires lo + k < hi
    ensures RangeText(lo, hi)[k] == IntToString(lo + k)
    decreases hi - lo
  {
    if k > 0 {
      RangeTextAt(lo + 1, hi, k - 1);
    }
  }

  /** `[str(i) for i in xs]` */
  function Texts(xs: seq<int>): (r: seq<string>)
    ensures |r| == |xs|
    ensures forall k :: 0 <= k < |xs| ==> r[k] == IntToString(xs[k])
  {
    if xs == [] then [] else [IntToString(xs[0])] + Texts(xs[1..])
  }

  /** `TIMEZONE_OPTIONS` */
  const TimeZoneOptions: seq<string> := RangeText(-12, 13)

  /** The poll rates offered, in seconds. */
  const UpdateRates: seq<int> := [1, 2, 5, 10, 15, 30, 60]

  /** `UPDATE_RATE_OPTIONS` */
  const UpdateRateOptions: seq<string> := Texts(UpdateRates)

  /** The time-zone options are the offsets -12 … 12, each once, ascending. */
  lemma TimeZoneOptionsAscending()
    ensures |TimeZoneOptions| == 25
    ensures forall i :: 0 <= i < 25 ==> ParseInt(TimeZoneOptions[i]) == Some(i - 12)
  {
    forall i | 0 <= i < 25 ensures ParseInt(TimeZoneOptions[i]) == Some(i - 12) {
      RangeTextAt(-12, 13, i);
      ParseIntOfIntToString(i - 12);
    }
  }

  /** A string is a time-zone option exactly when it is `str(z)` for an offset -12 ≤ z ≤ 12. */
  lemma TimeZoneOptionMembership(z: int)
    ensures IntToString(z) in TimeZoneOptions <==> -12 <= z <= 12
  {
    if -12 <= z <= 12 {
      RangeTextAt(-12, 13, z + 12);
      assert TimeZoneOptions[z + 12] == IntToString(z);
    }
    if IntToString(z) in TimeZoneOptions {
      var i :| 0 <= i < 25 && TimeZoneOptions[i] == IntToString(z);
      RangeTextAt(-12, 13, i);
      IntToStringInjective(i - 12, z);
    }
  }

  /** Every poll-rate option reads back as its rate, and the default "10" is one of them. */
  lemma UpdateRateOptionsParse()
    ensures |UpdateRateOptions| == 7
    ensures forall i :: 0 <= i < 7 ==> ParseInt(UpdateRateOptions[i]) == Some(UpdateRates[i])
    ensures "10" == UpdateRateOptions[3]
  {
    forall i | 0 <= i < 7 ensures ParseInt(UpdateRateOptions[i]) == Some(UpdateRates[i]) {
      ParseIntOfIntToString(UpdateRates[i]);
    }
    assert IntToString(10) == "10";
  }

  // ------------------------------------------------------ TimeZoneSelect

  /** `int(float(str(raw).strip()))` as text, "0" when the conversion raises. */
  function ParsedTimeZone(raw: Value): string {
    match ParseFloat(Strip(Str(raw)))
    case Some(n) => IntToString(Truncate(n))
    case None => "0"
  }

  /**
   * The option `TimeZoneSelect.__init__` starts with: the integer-normalised
   * `timeZone` (default "0") if it is an option, else None.
   */
  function InitialTimeZone(snap: Dict): (r: Option<string>)
    ensures r.Some? ==> r.value in TimeZoneOptions
    ensures r.None? <==> ParsedTimeZone(GetOr(snap, "timeZone", VStr("0"))) !in TimeZoneOptions
  {
    var tz := ParsedTimeZone(GetOr(snap, "timeZone", VStr("0")));
    if tz in TimeZoneOptions then Some(tz) else None
  }

  /** An integer offset starts the select on itself when it is in range, and on nothing otherwise. */
  lemma InitialTimeZoneOfInt(snap: Dict, z: int)
    requires Get(snap, "timeZone") == VInt(z)
    ensures InitialTimeZone(snap) == (if -12 <= z <= 12 then Some(IntToString(z)) else None)
  {
    IntToStringPlain(z);
    StripIdle(IntToString(z));
    ParseFloatOfIntToString(z);
    TimeZoneOptionMembership(z);
  }

  /** Without a `timeZone`, or with one that does not convert, the select starts on "0". */
  lemma InitialTimeZoneFallback(snap: Dict)
    requires "timeZone" !in snap || ParseFloat(Strip(Str(snap["timeZone"]))).None?
    ensures InitialTimeZone(snap) == Some("0")
  {
    var raw := GetOr(snap, "timeZone", VStr("0"));
    assert ParsedTimeZone(raw) == "0" by {
      assert IntToString(0) == "0";
      if "timeZone" !in snap {
        StripIdle("0");
        ParseFloatOfIntToString(0);
      }
    }
    assert IntToString(0) == "0";
    TimeZoneOptionMembership(0);
  }

  /** The fixed body of a time-zone change: the schedule fields are not echoed. */
  function TimeZoneRequest(host: string, option: string): (r: Request)
    ensures r.url == HostUrl(host, "/timer") && r.pageEvent == None
  {
    Request(HostUrl(host, "/timer"), TimerBody("false", "None", "None", option), None)
  }

  lemma TimeZoneRequestText(host: string, option: string)
    ensures TimeZoneRequest(host, option).body
            == "isAlarm=false&startTime=None&stopTime=None&timeZone=" + option
  {
    TimerBodyText("false", "None", "None", option);
    assert "isAlarm=" + "false" == "isAlarm=false";
    assert "isAlarm=false" + "&startTime=" == "isAlarm=false&startTime=";
    assert "isAlarm=false&startTime=" + "None" == "isAlarm=false&startTime=None";
    assert "isAlarm=false&startTime=None" + "&stopTime=" == "isAlarm=false&startTime=None&stopTime=";
    assert "isAlarm=false&startTime=None&stopTime=" + "None" == "isAlarm=false&startTime=None&stopTime=None";
    assert "isAlarm=false&startTime=None&stopTime=None" + "&timeZone="
           == "isAlarm=false&startTime=None&stopTime=None&timeZone=";
  }

  /**
   * Because the time-zone body does not echo the schedule, once the device
   * has stored it the schedule switch reads off and both time fields read "None".
   */
  lemma TimeZoneSelectClearsSchedule(host: string, option: string, snap: Dict)
    requires '&' !in option
    ensures var after := Applied(snap, Send(TimeZoneRequest(host, option)));
            && !Switch.ScheduleIsOn(after)
            && TimeField.TimeValue("startTime", after) == Some("None")
            && TimeField.TimeValue("stopTime", after) == Some("None")
  {
    TimeZoneEcho(host, option, snap);
    assert Lower("false") == "false";
  }

  /** The device stores the three schedule fields of a time-zone change as text. */
  lemma TimeZoneEcho(host: string, option: string, snap: Dict)
    requires '&' !in option
    ensures var after := Applied(snap, Send(TimeZoneRequest(host, option)));
            && Get(after, "isAlarm") == VStr("false")
            && Get(after, "startTime") == VStr("None")
            && Get(after, "stopTime") == VStr("None")
  {
    TimerEcho(snap, "false", "None", "None", option);
    ParseIntRejectsWords();
  }

  /** `TimeZoneSelect`: the current option, changed only by a post that returned. */
  class TimeZoneSelect {
    var currentOption: Option<string>

    constructor (snap: Dict)
      ensures currentOption == InitialTimeZone(snap)
    {
      currentOption := InitialTimeZone(snap);
    }

    /** `async_select_option`: post, then (if the post returned) adopt the option and refresh. */
    method SelectOption(host: string, option: string, postRaises: bool) returns (t: Trace)
      modifies this
      ensures t == Execute(Send(TimeZoneRequest(host, option)), true, postRaises)
      ensures currentOption == (if postRaises then old(currentOption) else Some(option))
    {
      var request := TimeZoneRequest(host, option);
      if postRaises {
        t := Trace(Some(request), false, false);
        return;
      }
      currentOption := Some(option);
      t := Trace(Some(request), true, false);
    }
  }

  // ---------------------------------------------------- UpdateRateSelect

  /**
   * `{**options, "update_rate": int(option)}`; None when `int(option)` raises
   * (the handler catches it and changes nothing).
   */
  function WithRate(options: Dict, option: string): (r: Option<Dict>)
    ensures r.Some? <==> ParseInt(option).Some?
    ensures r.Some? ==> r.value.Keys == options.Keys + {"update_rate"}
                        && r.value["update_rate"] == VInt(ParseInt(option).value)
                        && (forall k :: k in options && k != "update_rate" ==> r.value[k] == options[k])
  {
    match ParseInt(option)
    case Some(n) => Some(options["update_rate" := VInt(n)])
    case None => None
  }

  /** Selecting an offered rate makes the coordinator's interval that rate, in seconds. */
  lemma SelectedRateIsInterval(options: Dict, i: nat)
    requires i < |UpdateRateOptions|
    ensures WithRate(options, UpdateRateOptions[i]).Some?
    ensures Coordinator.UpdateInterval(WithRate(options, UpdateRateOptions[i]).value) == VInt(UpdateRates[i])
  {
    UpdateRateOptionsParse();
  }

  /** `UpdateRateSelect`: the config entry's options and the shown option. */
  class UpdateRateSelect {
    var options: Dict
    var currentOption: string

    constructor (entryOptions: Dict)
      ensures options == entryOptions
      ensures currentOption == Str(GetOr(entryOptions, "update_rate", VInt(10)))
    {
      options := entryOptions;
      currentOption := Str(GetOr(entryOptions, "update_rate", VInt(10)));
    }

    /** Not tied to the coordinator: always available. */
    predicate Available() {
      true
    }

    /** `async_select_option`: rewrite the options with the new rate, or change nothing when it does not parse. */
    method SelectOption(option: string)
      modifies this
      ensures WithRate(old(options), option).Some? ==>
                options == WithRate(old(options), option).value && currentOption == option
      ensures WithRate(old(options), option).None? ==>
                options == old(options) && currentOption == old(currentOption)
    {
      var parsed := ParseInt(option);
      if parsed.None? {
        return;
      }
      options := options["update_rate" := VInt(parsed.value)];
      currentOption := option;
    }
  }
}
