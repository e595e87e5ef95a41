# ha-hunter-wifi in Dafny

A model of the logic inside the `hunter_wifi` Home Assistant integration. The
integration drives two kinds of local WiFi device: an EVSE (electric-vehicle
charger) and a Hunter irrigation controller. Everything the framework does is
left to the framework. What remains is modelled as values, functions and small
classes:

- **Poll cycle** (`coordinator.dfy`). Each cycle asks `/init` and then `/main`.
  A response counts only on status 200 with a JSON content type. Every failure
  adds one error, in endpoint order. The two payloads are merged, with `/main`
  winning on shared keys. An empty merge fails the cycle with a message that
  joins the errors. A body that decodes to a JSON value other than an object
  is recorded as an error and then makes the merge itself raise.
- **Form-encoded writes** (`command.dfy`). A write is a `Request`: URL, body
  and optional `pageEvent` header. A `Plan` is what a handler decides before
  the network: nothing, a post, or an exception. `Execute` turns a plan plus
  the post's outcome into a `Trace`, which records whether the refresh and
  state write ran and whether an exception escaped. `Applied` gives the
  snapshot once the device has stored a posted body; `Echo` stores a numeral
  as a number and anything else as text. This lets the model state that "the
  switch reads as set after the write".
- **Switches** (`switch.dfy`):
  - Restricted mode reads on when the current limit is at most 16 A. Its
    writes post `currentSet=12` or `currentSet=16` only when needed.
  - `evseEnabled` is inverted.
  - The schedule switch posts the whole `/timer` form.
  - The `aiMode` switch writes its own key but reads `aiStatus`.
- **Sensors** (`sensor.dfy`): what each sensor shows, and the
  `EvseSensor` class that skips a `systemTime` update within two seconds of
  the stored one, unless either timestamp lies outside the years `datetime`
  can represent. Also the ground-status sensor and the entity list per
  device type.
- **Schedule time fields** (`time_field.dfy`) and **selects**
  (`select.dfy`). The time-zone select starts from the snapshot. It posts a
  `/timer` form that resets the schedule. The update-rate select writes the
  poll interval into the entry options and is always available.
- **Irrigation** (`button.dfy`, `zone_number.dfy`):
  - The shared zone-duration store and the number entities that update it
    in place.
  - The URLs the action buttons build.
  - The stop-all loop, which sends one request per zone and catches each
    failure on its own.
  - Button naming and the entity list.
- **Config flow** (`config_flow.dfy`). The host check, the device-name
  check and the errors dictionary. The `Flow` class holds the data the flow
  carries between steps.

`pyvalue.dfy` holds the Python semantics the code depends on:
- JSON scalars (`Value`) and `dict.get`.
- `bool()`, `str()`, `str.lower()`, `str.strip()`.
- `int()` and `float()` on strings. `float()` yields the exact decimal value
  rather than the nearest binary double, and `int(float(…))` truncates that
  exact value. "## Left out" lists each member where this differs from Python.

Notable behaviour proved about the code as written:
- `RestrictedOffLeavesOn`: turning restricted mode off sets the current to 16,
  and 16 still reads as restricted. The switch therefore reads on after a
  successful turn-off.
- `RestrictedOnStillPostsBetween12And16`: turn-on posts `currentSet=12`
  whenever the current is above 12, even when the switch already reads on.
  The integration's description calls a second turn-on at or below 16 a no-op
  with no network call. The code only skips the post at or below 12, and the
  model follows the code.
- `TimeZoneSelectClearsSchedule`: changing the time zone switches the schedule
  off and sets both times to "None", because the body does not echo them.
- `AiModeReadsStatusNotMode`: the `aiMode` switch's own write never changes
  what it shows.
- `OutOfRangeGroupsAccepted`: there is no 0–255 check on the host, so
  "999.1.1.1" is accepted.
- `TrailingNewlineAccepted`: the host regex's `$` also matches before a final
  newline, so "1.2.3.4\n" is accepted.
- `NonObjectBodyCrashesCycle`: a `/init` or `/main` body that decodes to a
  list, a string, a number or `null` is assigned before its `.items()` raises,
  so the merge outside every `try` raises a TypeError even when the other
  endpoint answered properly.

## Model

| member | source | states |
|---|---|---|
| Coordinator.Fetch | custom_components/hunter_wifi/coordinator.py:56-116 | An endpoint yields its JSON object exactly when it answered 200 with a content type containing "application/json" and the body decoded to an object. Otherwise its payload is empty and it records exactly one error: "invalid response" with status and content type, or "request error" with the reason. It is marked as holding a non-mapping exactly when an acceptable body decoded to something other than an object. |
| Coordinator.Cycle | custom_components/hunter_wifi/coordinator.py:122-129 | The merge raises exactly when either endpoint holds a non-object body. A successful cycle's snapshot is never empty, and a failure message always starts with "Coordinator update failed: no data returned. ". |
| Coordinator.UpdateData | custom_components/hunter_wifi/coordinator.py:46-129 | The step-by-step cycle fills both payload variables (a decoded non-object body included), appends the errors and merges, and its result equals the cycle function `Cycle`. |
| Coordinator.MainWinsOnCollision | custom_components/hunter_wifi/coordinator.py:122 | The snapshot holds every key of either payload, with `/main`'s value on shared keys and `/init`'s value elsewhere. |
| Coordinator.FailsIffNothingFetched | custom_components/hunter_wifi/coordinator.py:122-129 | The cycle raises UpdateFailed if and only if both payloads are empty and neither body is a non-object, so one good endpoint is enough. |
| Coordinator.NonObjectBodyCrashesCycle | custom_components/hunter_wifi/coordinator.py:63-122 | A non-object body on an acceptable response is recorded as a request error, and the cycle raises in the merge whichever endpoint sent it, even when the other answered with an object. |
| Coordinator.InitFailureDoesNotStopMain | custom_components/hunter_wifi/coordinator.py:80-96 | An exception, a bad response or a decode error on `/init` is recorded, and `/main` is still asked. A non-empty object from `/main`, under any content type containing "application/json", makes the cycle succeed with exactly its payload. |
| Coordinator.TwoErrorsMessage | custom_components/hunter_wifi/coordinator.py:124-125 | Two errors are joined with "; " after the failure prefix. |
| Coordinator.BothFailedMessage | custom_components/hunter_wifi/coordinator.py:123-127 | When both endpoints fail without a non-object body, the message is the prefix, then `/init`'s error, "; ", then `/main`'s error. |
| Coordinator.EmptyPayloadsMessage | custom_components/hunter_wifi/coordinator.py:123-127 | Two empty objects give the message "Coordinator update failed: no data returned. no additional error details". |
| Coordinator.ErrorsInEndpointOrder | custom_components/hunter_wifi/coordinator.py:49-126 | A failed cycle has at most two errors: `/init`'s comes first and `/main`'s last, and the message is built from that list. |
| Coordinator.DeviceName | custom_components/hunter_wifi/coordinator.py:40-42 | The device name comes from the options, else from the entry data, else "Eveus Pro". |
| Coordinator.UpdateInterval | custom_components/hunter_wifi/coordinator.py:29-34 | The poll interval is `options["update_rate"]`, else 10 seconds. The entry data is not consulted. |
| Command.DecodeEncode | custom_components/hunter_wifi/time.py:100-105 | A body built as `k1=v1&…` decodes back to exactly its fields, in order, provided no `&` appears anywhere and no `=` appears in a key. |
| Command.TimerBodyText | custom_components/hunter_wifi/time.py:100-105 | The `/timer` body is `isAlarm=…&startTime=…&stopTime=…&timeZone=…`, in that fixed order. |
| Command.TimerBodyDecodes | custom_components/hunter_wifi/switch.py:205-210 | The `/timer` body decodes to the four fields isAlarm, startTime, stopTime and timeZone, in that order. |
| Command.TimerEcho | custom_components/hunter_wifi/time.py:100-112 | After a `/timer` post is stored, each of its four keys reads back as the value sent. |
| Command.Execute | custom_components/hunter_wifi/switch.py:107-120 | A post is attempted exactly for a Send plan. The refresh follows exactly a post that returned. An exception escapes exactly when the plan raised, or the post raised outside a `try`. |
| Switch.CurrentLimit | custom_components/hunter_wifi/switch.py:129 | `float(currentSet)`, defaulting to 32 when the key is missing, or an exception when it does not convert. |
| Switch.SwitchIsOn | custom_components/hunter_wifi/switch.py:80-87 | Restricted mode is on if and only if the current is at most 16 (the read raises when the current does not convert). `evseEnabled` is on exactly when its flag is falsy. Any other key is on when its value is truthy. |
| Switch.EventRequest | custom_components/hunter_wifi/switch.py:107-117 | An event is a post to `/pageEvent` with header pageEvent = key and body `key=1` or `key=0`. |
| Switch.CurrentRequest | custom_components/hunter_wifi/switch.py:131-139 | The current post goes to `/pageEvent` with header `currentSet` and body `currentSet={target}`. |
| Switch.SetCurrentIfNeeded | custom_components/hunter_wifi/switch.py:122-140 | It raises exactly when the current does not convert. Otherwise it posts the target if and only if (only-if-high and current > target) or (only-if-low and current ≤ target). |
| Switch.TurnOn | custom_components/hunter_wifi/switch.py:89-96 | Restricted mode raises when the current does not convert, posts `currentSet=12` when it is above 12 and otherwise does nothing. `evseEnabled` posts `evseEnabled=0`, and every other switch posts `key=1`. |
| Switch.TurnOff | custom_components/hunter_wifi/switch.py:98-105 | Restricted mode raises when the current does not convert, posts `currentSet=16` when it is at most 16 and otherwise does nothing. `evseEnabled` posts `evseEnabled=1`, and every other switch posts `key=0`. |
| Switch.RestrictedOnSendsIffAbove12 | custom_components/hunter_wifi/switch.py:91-92 | Turn-on posts `currentSet=12` if and only if the current is above 12. When nothing is posted, there is no refresh and no exception. |
| Switch.RestrictedOnStillPostsBetween12And16 | custom_components/hunter_wifi/switch.py:129-131 | When 12 < current ≤ 16, the switch already reads on, yet turn-on still posts `currentSet=12`. |
| Switch.RestrictedOffSendsIffAtMost16 | custom_components/hunter_wifi/switch.py:100-101 | Turn-off posts `currentSet=16` if and only if the current is at most 16, and otherwise does nothing. |
| Switch.CurrentEcho | custom_components/hunter_wifi/switch.py:131 | Once stored, a `currentSet` post leaves the snapshot with the target as a number, and nothing else changed. |
| Switch.RestrictedOnSettles | custom_components/hunter_wifi/switch.py:83-92 | After turn-on, restricted mode reads on, whether or not a post was needed. |
| Switch.RestrictedOffLeavesOn | custom_components/hunter_wifi/switch.py:83-101 | From restricted on, turn-off posts `currentSet=16`, and the switch still reads on afterwards. |
| Switch.RestrictedPostFailureEscapes | custom_components/hunter_wifi/switch.py:136-140 | A failed restricted-mode post is not caught: the exception escapes and no refresh follows. |
| Switch.EvseEnabledInverted | custom_components/hunter_wifi/switch.py:85-103 | `evseEnabled` reads on when its flag is falsy. Turn-on sends `evseEnabled=0` and turn-off sends `evseEnabled=1`. |
| Switch.EventHandlersCatch | custom_components/hunter_wifi/switch.py:107-120 | Every switch except restricted mode posts its event, and a refresh follows only a post that returned. No exception escapes. |
| Switch.EventSwitchSettles | custom_components/hunter_wifi/switch.py:85-108 | After the device stores the event, the switch reads the way it was set, including the inverted `evseEnabled`. |
| Switch.TextTrueCases | custom_components/hunter_wifi/switch.py:187-188 | `str(v).lower() in ["true", "1"]` holds exactly for True, 1, and strings that lower-case to "true" or "1". |
| Switch.ScheduleIsOn | custom_components/hunter_wifi/switch.py:184-188 | The schedule reads on if and only if `isAlarm` is True, the integer 1, or text that lower-cases to "true" or "1". |
| Switch.ScheduleSend | custom_components/hunter_wifi/switch.py:198-220 | An empty snapshot sends nothing. Otherwise the switch posts to `/timer` with no pageEvent header. |
| Switch.ScheduleSendCaught | custom_components/hunter_wifi/switch.py:198-220 | The schedule post and its refresh are inside `try ... except Exception`: nothing escapes, an empty snapshot posts nothing, and the refresh follows exactly a post that returned. |
| Switch.ScheduleBodyText | custom_components/hunter_wifi/switch.py:205-210 | The schedule body is `isAlarm=true\|false&startTime=…&stopTime=…&timeZone=…`, holding `str()` of the snapshot's values. |
| Switch.ScheduleSendDecodes | custom_components/hunter_wifi/switch.py:205-210 | The device reads the schedule body back as four fields; the last three echo the snapshot. |
| Switch.ScheduleAlarmEcho | custom_components/hunter_wifi/switch.py:206 | After the post is stored, `isAlarm` holds the text "true" or "false". |
| Switch.ScheduleSendSettles | custom_components/hunter_wifi/switch.py:184-210 | After the post is stored, the schedule switch reads on if and only if it was turned on. |
| Switch.SimpleIsOn | custom_components/hunter_wifi/switch.py:262-269 | A simple switch reads on if and only if its read key (`aiStatus` for `aiMode`) holds True, 1, or text that lower-cases to "true" or "1". |
| Switch.SimpleSend | custom_components/hunter_wifi/switch.py:279-290 | A simple switch posts `key={state}` to `/pageEvent` with header pageEvent = key. The body decodes to that single field. |
| Switch.SimpleSendCaught | custom_components/hunter_wifi/switch.py:279-292 | The simple post and its refresh are inside `try ... except Exception`: the event is always posted, nothing escapes, and the refresh follows exactly a post that returned. |
| Switch.SimpleEcho | custom_components/hunter_wifi/switch.py:280 | Once stored, the post sets the written key to the state and leaves everything else as it was. |
| Switch.AiModeReadsStatusNotMode | custom_components/hunter_wifi/switch.py:262-280 | `aiMode` writes `aiMode=…` but reads `aiStatus`, so neither its stored value nor its own post changes what it shows. |
| Switch.OneChargeSettles | custom_components/hunter_wifi/switch.py:262-290 | After `oneCharge`'s post is stored, the switch reads the way it was set. |
| Sensor.StatusName | custom_components/hunter_wifi/sensor.py:242-243 | Codes 0–7 map to the eight names of STATUS_MAP. A boolean finds code 1 or 0. Anything else reads "unknown". |
| Sensor.StatusUnknownIffUnmapped | custom_components/hunter_wifi/const.py:9-17 | A state reads "unknown" if and only if it is neither one of the eight codes nor a boolean. |
| Sensor.StatusNamesDistinct | custom_components/hunter_wifi/const.py:9-17 | Distinct codes show distinct names. |
| Sensor.SensorValue | custom_components/hunter_wifi/sensor.py:226-247 | A missing or None value reads "unknown". `state` maps through STATUS_MAP. `sessionTime` is `int(float(str(v)))`, or `str(v)` when that raises. `systemTime` is the timestamp `int(float(str(v)))` when it lies in years 1–9999 (-62135596800 to 253402300799), and `str(v)` when the conversion or `fromtimestamp` raises. Other unrounded keys show the raw value. |
| Sensor.RoundedReadings | custom_components/hunter_wifi/sensor.py:232-235 | The current and energy keys carry the exact value to round, to 2 or 3 digits. A value that `float()` rejects reads as its text. |
| Sensor.OrZero | custom_components/hunter_wifi/sensor.py:253 | `stored or "0"`: a falsy stored value is read as "0". |
| Sensor.ShouldWrite | custom_components/hunter_wifi/sensor.py:249-263 | Every key other than `systemTime` writes. For `systemTime`, a value that does not convert writes. Two converted timestamps write if and only if one lies outside years 1–9999 (where `fromtimestamp` raises and the error is caught) or they lie more than 2 seconds apart. |
| Sensor.EvseSensor.constructor | custom_components/hunter_wifi/sensor.py:193-217 | A new sensor has its key, no stored value and no state writes yet. |
| Sensor.EvseSensor.HandleUpdate | custom_components/hunter_wifi/sensor.py:249-263 | When `ShouldWrite` holds, the new value is stored and one state write is made. Otherwise the stored value and the write count stay as they were. |
| Sensor.OtherKeysAlwaysWrite | custom_components/hunter_wifi/sensor.py:251-263 | Every key other than `systemTime` stores and writes on every update. |
| Sensor.SystemTimeWithinTwoSkipped | custom_components/hunter_wifi/sensor.py:251-263 | For two integer timestamps, the update is skipped if and only if both lie in years 1–9999 and they differ by at most 2 seconds. |
| Sensor.OutOfRangeTimestampWrites | custom_components/hunter_wifi/sensor.py:255-262 | A timestamp past year 9999, such as 10^12, makes `fromtimestamp` raise, so even an identical repeat is stored and written. |
| Sensor.SystemTimeFromUnset | custom_components/hunter_wifi/sensor.py:253 | An unset stored value counts as timestamp 0, so the first update is skipped exactly when \|new\| ≤ 2. |
| Sensor.UnparsableSystemTimeWrites | custom_components/hunter_wifi/sensor.py:252-262 | When the new value does not convert, the exception is caught and the value is stored. |
| Sensor.SystemTimeIdempotent | custom_components/hunter_wifi/sensor.py:251-258 | Repeating a convertible `systemTime` skips the second write if and only if the timestamp lies in years 1–9999. |
| Sensor.GroundValue | custom_components/hunter_wifi/sensor.py:305 | Ground reads "✅" if and only if `ground` (default 0) is truthy, and "❌" otherwise. |
| Sensor.GroundIcon | custom_components/hunter_wifi/sensor.py:310-314 | The icon is one of two, and it is the check icon if and only if `ground` (default 0) is truthy. |
| Sensor.GroundIconMatchesValue | custom_components/hunter_wifi/sensor.py:310-314 | The check icon shows exactly when ground is truthy. A missing `ground` gives "❌" and the close icon. |
| Sensor.DeviceType | custom_components/hunter_wifi/sensor.py:164-166 | The device type comes from the options, else the entry data, else "1_phase". |
| Sensor.SetupSensors | custom_components/hunter_wifi/sensor.py:156-188 | The list is the 12 base sensors, then the 4 phase-2/3 sensors only for "3_phase", then the ground sensor: 17 or 13 entities. |
| TimeField.TimeValue | custom_components/hunter_wifi/time.py:83-86 | A time field reads `str(value)`, or None when the key is missing or holds None. |
| TimeField.Updated | custom_components/hunter_wifi/time.py:91-98 | The edited key takes the new text. The other fields come from the snapshot, else "00:00", "00:00", 0 and "false". `isAlarm` is lower-cased. |
| TimeField.SetValue | custom_components/hunter_wifi/time.py:107-112 | Setting a field posts to `/timer` with no pageEvent header. |
| TimeField.SetValueFields | custom_components/hunter_wifi/time.py:91-105 | The body carries all four fields in order. Only the edited one carries the new value; the others come from the snapshot or their defaults. The `isAlarm` sent is lower-case. |
| TimeField.SetValueText | custom_components/hunter_wifi/time.py:100-105 | The body text is `isAlarm=…&startTime=…&stopTime=…&timeZone=…`. |
| TimeField.SetValueFailureCaught | custom_components/hunter_wifi/time.py:90-117 | A failed post is caught: no refresh, no state write, no escaping exception. |
| TimeField.SetValueSettles | custom_components/hunter_wifi/time.py:91-112 | After a clock time is posted and stored, the edited field reads back as exactly that text. |
| Select.RangeText | custom_components/hunter_wifi/select.py:21 | `[str(i) for i in range(lo, hi)]` has hi − lo entries (none when lo ≥ hi). |
| Select.RangeTextAt | custom_components/hunter_wifi/select.py:21 | Its k-th entry is `str(lo + k)`. |
| Select.Texts | custom_components/hunter_wifi/select.py:22 | `[str(i) for i in xs]` keeps length and order. |
| Select.TimeZoneOptionsAscending | custom_components/hunter_wifi/select.py:21 | There are 25 time-zone options, and the i-th reads as i − 12: "-12" … "12", ascending. |
| Select.TimeZoneOptionMembership | custom_components/hunter_wifi/select.py:21 | `str(z)` is an option if and only if −12 ≤ z ≤ 12. |
| Select.UpdateRateOptionsParse | custom_components/hunter_wifi/select.py:22 | The 7 rate options read as 1, 2, 5, 10, 15, 30 and 60 seconds, and "10" is one of them. |
| Select.InitialTimeZone | custom_components/hunter_wifi/select.py:57-72 | The start option is the integer-normalised `timeZone` (default "0", "0" on a parse failure) when that is an option, else None. |
| Select.InitialTimeZoneOfInt | custom_components/hunter_wifi/select.py:57-72 | An integer offset starts the select on itself when −12 ≤ z ≤ 12, and on None otherwise. |
| Select.InitialTimeZoneFallback | custom_components/hunter_wifi/select.py:57-63 | A missing or unconvertible `timeZone` starts the select on "0". |
| Select.TimeZoneSelect.constructor | custom_components/hunter_wifi/select.py:39-72 | A new time-zone select starts on `InitialTimeZone` of the snapshot. |
| Select.TimeZoneRequest | custom_components/hunter_wifi/select.py:77-83 | The time-zone post goes to `/timer` with no pageEvent header. |
| Select.TimeZoneRequestText | custom_components/hunter_wifi/select.py:77 | Its body is `isAlarm=false&startTime=None&stopTime=None&timeZone={option}`. |
| Select.TimeZoneEcho | custom_components/hunter_wifi/select.py:77 | Once stored, the fields read isAlarm "false", startTime "None" and stopTime "None". |
| Select.TimeZoneSelectClearsSchedule | custom_components/hunter_wifi/select.py:77 | After a time-zone change is stored, the schedule switch reads off and both time fields read "None". |
| Select.TimeZoneSelect.SelectOption | custom_components/hunter_wifi/select.py:74-89 | The select posts the fixed body. The option changes, and the refresh follows, only when the post returned. A failure is caught. |
| Select.WithRate | custom_components/hunter_wifi/select.py:138-141 | The new options exist exactly when `int(option)` parses. They keep every other key and set `update_rate` to that int. |
| Select.SelectedRateIsInterval | custom_components/hunter_wifi/select.py:140 | Selecting an offered rate makes the coordinator's poll interval that rate. |
| Select.UpdateRateSelect.constructor | custom_components/hunter_wifi/select.py:133 | The shown option is `str(options.get("update_rate", 10))`. |
| Select.UpdateRateSelect.SelectOption | custom_components/hunter_wifi/select.py:135-146 | A parsing option rewrites the options and the shown option. One that does not parse changes nothing. |
| ZoneNumber.StoredDuration | custom_components/hunter_wifi/number.py:95-97 | A missing or zero value is stored as the default duration; any other value is stored as itself. |
| ZoneNumber.ZoneDurationNumber.constructor | custom_components/hunter_wifi/number.py:75 | The value starts at the default duration. |
| ZoneNumber.ZoneDurationNumber.UpdateRuntimeDuration | custom_components/hunter_wifi/number.py:91-97 | Only this zone's entry of the shared map is set. Every other zone keeps its entry. |
| ZoneNumber.ZoneDurationNumber.AddedToHass | custom_components/hunter_wifi/number.py:77-83 | A restored value, which may itself be None, replaces the current one, and then the store is synced. |
| ZoneNumber.ZoneDurationNumber.SetNativeValue | custom_components/hunter_wifi/number.py:85-89 | A value in 1..240 becomes this zone's duration and one state write is made. |
| ZoneNumber.SetupNumbers | custom_components/hunter_wifi/number.py:37-42 | There is exactly one duration entity per configured zone, in order, all sharing one store. |
| Button.StopUrlTextInjective | custom_components/hunter_wifi/button.py:156 | Two stop URLs for one host are equal if and only if they name the same zone. |
| Button.StartUrlTextEndsWithTime | custom_components/hunter_wifi/button.py:171-173 | A start URL ends with `?time={duration}`. |
| Button.DurationFor | custom_components/hunter_wifi/button.py:168-170 | The duration is the stored one for the zone, else 5 minutes. |
| Button.BuildUrl | custom_components/hunter_wifi/button.py:164-179 | With a zone: the start URL for "start_zone", else the stop URL. Without a zone: the program URL exactly for "start_program". Any other case is the ValueError. |
| Button.StopAllZonesLoop | custom_components/hunter_wifi/button.py:153-162 | The loop's requests and escape equal `StopAll` on the zones and their outcomes. |
| Button.StopAll | custom_components/hunter_wifi/button.py:153-162 | Stop-all never requests more URLs than there are zones. |
| Button.StopAllReachesEveryZone | custom_components/hunter_wifi/button.py:155-162 | When every failure is a client error or a timeout, each zone gets its stop request and nothing escapes. |
| Button.StopAllStopsAtCrash | custom_components/hunter_wifi/button.py:157-161 | Any other exception escapes and ends the loop right after the zone that raised it. |
| Button.StopAllInZoneOrder | custom_components/hunter_wifi/button.py:155-156 | The n-th request stops the n-th configured zone. |
| Button.Press | custom_components/hunter_wifi/button.py:137-151 | A build failure requests nothing and is swallowed. Otherwise the one URL is requested, and only an exception outside the caught kinds escapes. |
| Button.ValueErrorCaughtOnlyByPress | custom_components/hunter_wifi/button.py:145-161 | A ValueError from the GET is swallowed by a single press but escapes the stop-all loop, whose `except` names only client errors and timeouts. |
| Button.UnsupportedActionIsSwallowed | custom_components/hunter_wifi/button.py:176-179 | An unsupported action requests nothing and raises nothing out of the press. |
| Button.StartUsesStoredDuration | custom_components/hunter_wifi/button.py:166-173 | A zone start requests `?time=` the stored duration, else 5. |
| Button.StartAfterSet | custom_components/hunter_wifi/number.py:85-97 | After a zone's number entity sets v, that zone's start button requests `?time=v`. |
| Button.Icon | custom_components/hunter_wifi/button.py:132-135 | The play icon is used if and only if the action starts with "start". |
| Button.IconsOfActions | custom_components/hunter_wifi/button.py:132-135 | The two start actions get the play icon; the stop and stop-all actions get the stop icon. |
| Button.UniqueId | custom_components/hunter_wifi/button.py:118-128 | Every unique id starts with the action and "_" and ends with "_" and the entry id. |
| Button.ObjectId | custom_components/hunter_wifi/button.py:118-130 | Every suggested object id starts with the device slug, "_" and the action. |
| Button.ZoneButtonNames | custom_components/hunter_wifi/button.py:118-126 | Zone buttons are named "Start Zone z" and "Stop Zone z", with unique id `start_zone_{z}_{entry}` and object id `{slug}_start_zone_{z}`; stop-all's object id is `{slug}_stop_all_zones`. |
| Button.OtherButtonNames | custom_components/hunter_wifi/button.py:118-130 | The stop-all button is named "Stop All Zones" with unique id `stop_all_zones_{entry}`; a program button is named "Start Program p" with unique id `start_program_{p}_{entry}` and object id `{slug}_start_program_{p}`. |
| Button.UniqueIdLayout | custom_components/hunter_wifi/button.py:118-128 | A unique id is the action, "_", the zone or program and "_" (except for stop-all), then the entry id. |
| Button.UniqueIdAction | custom_components/hunter_wifi/button.py:118-128 | Buttons of the set-up shapes with the same unique id have the same action. |
| Button.UniqueIdDetermines | custom_components/hunter_wifi/button.py:118-128 | Within one entry, equal unique ids mean the same action, zone and program. |
| Button.SetupButtons | custom_components/hunter_wifi/button.py:36-84 | For each zone a start button then a stop button, then one start per program, then one stop-all over all zones: 2·\|zones\| + \|programs\| + 1 entities. |
| ConfigFlow.HostValid | custom_components/hunter_wifi/config_flow.py:51 | An accepted dotted quad is 7 to 15 characters long, each a digit or a dot. |
| ConfigFlow.HostValidIsPattern | custom_components/hunter_wifi/config_flow.py:51 | Four dot-separated groups of 1–3 digits is exactly what `^\d{1,3}(\.\d{1,3}){3}` requires up to its end anchor, read left to right. |
| ConfigFlow.DottedQuadAccepted | custom_components/hunter_wifi/config_flow.py:51 | Any four 1–3-digit groups joined by dots are a valid host. |
| ConfigFlow.OutOfRangeGroupsAccepted | custom_components/hunter_wifi/config_flow.py:51 | There is no 0–255 check: "999.1.1.1" is accepted. |
| ConfigFlow.WrongGroupCountRejected | custom_components/hunter_wifi/config_flow.py:51 | "1.2.3" and "1.2.3.4.5" are rejected. |
| ConfigFlow.TrailingNewlineAccepted | custom_components/hunter_wifi/config_flow.py:51 | The regex also accepts a valid host followed by a newline, such as "1.2.3.4\n". |
| ConfigFlow.Errors | custom_components/hunter_wifi/config_flow.py:45-55 | Validation raises when the name or the host is not a string. Otherwise "invalid_ip" is reported if and only if the host is not accepted, and "required" if and only if the stripped name is empty. The two checks are independent. |
| ConfigFlow.EntryData | custom_components/hunter_wifi/config_flow.py:69-75 | The entry holds exactly host, username, password, device_type and device_name, copied from the flow data. A missing key is the KeyError. |
| ConfigFlow.Title | custom_components/hunter_wifi/config_flow.py:58-63 | The title is the translated one when there is one, else "EVSE Energy Star". |
| ConfigFlow.UserStep | custom_components/hunter_wifi/config_flow.py:41-98 | The data after the step is the old data, or the old data merged with an input that has no errors. A shown form leaves the data alone and, after an input, carries errors. An entry has exactly the five keys and the title. The step raises only on an input that does not read or a merge that lacks a key. |
| ConfigFlow.NoInputShowsForm | custom_components/hunter_wifi/config_flow.py:47-98 | With no input, the form is shown without errors and the flow data is untouched. |
| ConfigFlow.EntryIffNoErrors | custom_components/hunter_wifi/config_flow.py:57-76 | An entry is created if and only if the input has no errors and, merged into the data, supplies all five keys. |
| ConfigFlow.EntryContents | custom_components/hunter_wifi/config_flow.py:57-76 | The entry has exactly the five keys. Its host and device name are the submitted ones, the name unstripped. The host was accepted and the stripped name is non-empty. |
| ConfigFlow.ErrorsAreIndependent | custom_components/hunter_wifi/config_flow.py:51-55 | A bad host and a blank name are both reported, and nothing is created. |
| ConfigFlow.MissingNameRequired | custom_components/hunter_wifi/config_flow.py:49-55 | A missing device name counts as blank and is "required". |
| ConfigFlow.EarlierDataFillsEntry | custom_components/hunter_wifi/config_flow.py:65-75 | A key missing from the input is taken from data an earlier step stored. |
| ConfigFlow.Flow.constructor | custom_components/hunter_wifi/config_flow.py:30-32 | The flow starts with empty data. |
| ConfigFlow.Flow.StepUser | custom_components/hunter_wifi/config_flow.py:41-98 | The step's result and the new data equal `UserStep` of the old data. The input is merged before the entry is read, so the merge stays even when that read raises. |
| ConfigFlow.Flow.StepReauth | custom_components/hunter_wifi/config_flow.py:100-104 | Reauth behaves exactly as the user step. |

## Left out

- Network and timeouts: aiohttp sessions, HTTP itself, the 5-second timeout around the poll cycle (coordinator.py:51-52, 118-120) and the 10-second timeout per button request. Each request's outcome is an input.
- Framework behaviour: scheduling, refresh coalescing, `last_update_success` and `available`, `async_write_ha_state` (only counted or flagged in a trace), RestoreNumber storage, config-entry storage and reload.
- Floating point: `round(float(v), 2)` and `round(…, 3)` keep the exact decimal with its digit count but do not round it. `float()` of a string accepts decimal literals only: no exponent, `inf`, `nan` or underscores. `int()` of a string rejects underscores too, where Python reads `int("1_0")` as 10; this reaches Select.WithRate only for an option text the select does not offer. JSON floats in the snapshot are not represented; numbers are integers.
- `datetime.fromtimestamp`: a `systemTime` reading stays the integer timestamp, and the de-duplication compares integer seconds. Its range error for timestamps outside years 1–9999 is modelled; the `OSError` some platforms raise for negative timestamps is not.
- Text is ASCII-only: `str.lower()` lowers A–Z only, `\d` in the host regex matches only 0–9, and `int()` and `float()` read only the digits 0–9, where Python also accepts other Unicode decimal digits (`float("١٦")` is 16.0) in the currents of switch.py:129 and the sensor readings of sensor.py:226-256. `str.strip()` removes Python's full `str.isspace` set, Unicode spaces included.
- `slugify` (the device slug is a parameter), `async_get_translations` (the title is an optional input), the voluptuous and selector form schemas, `device_info` and logging. The button names and object ids are modelled; the object ids and unique ids of the sensor, switch, time, select and number entities are not.
- options_flow.py, `__init__.py`, data.py and the `async_setup_entry` of the switch, time and select platforms. These only build fixed entity lists or wire up the framework.
- Zones, programs and the default zone duration are parameters. button.py and number.py import CONF_ZONES, CONF_PROGRAMS and DEFAULT_ZONE_DURATION_MINUTES, which const.py does not define.
- The TypeError a non-object body raises in the merge is modelled as `MergeRaised`, without its message; what the framework does with an exception other than UpdateFailed is left to the framework.
- Coordinator.BothFailedMessage: holds only when neither body decoded to a non-object; with one, the merge raises instead of building the message (NonObjectBodyCrashesCycle).
- Switch.SwitchIsOn: compares the exact decimal of `currentSet` with 16, while Python compares the nearest binary double. Text such as "16.0000000000000001" becomes 16.0 in Python and reads on, but it is above 16 in the model and reads off.
- Switch.SetCurrentIfNeeded: the same exact-decimal comparison against 12 and 16, so Switch.TurnOn and Switch.TurnOff differ from Python for text currents within rounding distance of the target.
- EVSEScheduleSwitch._handle_coordinator_update (switch.py:174-177) caches the same reading that `is_on` computes; the cache is not modelled.
- The copy in `async_set_value` (time.py:91) needs nothing in the model: snapshots are values, so no operation can change the coordinator's snapshot.
- Button.StopAll: the outcome of each GET is an input, and a response of status 400 or more is expected to arrive as `ConnectionFailed` (what `raise_for_status` raises), not as `Completed`.
- ZoneNumber.ZoneDurationNumber.SetNativeValue: the declared range 1..240 is a precondition, and values are integers rather than floats.
- Sensor.SensorValue: the two rounded branches are stated by RoundedReadings rather than by its own clauses. Its `sessionTime` and `systemTime` readings truncate the exact decimal, while Python's `int(float(…))` first rounds to the nearest double: they differ for text within rounding distance of an integer ("1.99999999999999999" is 2 in Python, 1 here) and for integers beyond 2^53 (9007199254740993 shows as 9007199254740992 in Python).
- Sensor.ShouldWrite: the two timestamps are the truncated exact decimals, not Python's double-rounded ones, so a stored 1700000002 against "1699999999.9999999999" writes here but is skipped in Python (which reads 1700000000); integers beyond 2^53 likewise compare exactly here.
- Sensor.EvseSensor.HandleUpdate: inherits the exact-decimal timestamps of ShouldWrite.
- Select.InitialTimeZone: `int(float(str(raw).strip()))` truncates the exact decimal, so "12.99999999999999999" starts the select on "12" here, while Python reads 13 and starts on None.
- Select.UpdateRateSelect.Available: not tied to the coordinator, always true; it is a plain predicate without a contract.
