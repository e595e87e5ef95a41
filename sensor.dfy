/**
 * The EVSE sensors: what each reading shows for a snapshot, the
 * `systemTime` de-duplication kept by each sensor entity, the ground-status
 * sensor, and which sensors a config entry gets.
 */
module Sensor {
  import opened PyValue

  const SystemTime := "systemTime"
  const Unknown := "unknown"

  /**
   * What `native_value` returns. `Rounded(n, d)` is `round(n, d)` of the exact
   * decimal `n`; the rounding itself is floating point and not modelled.
   */
  datatype Reading =
    | Text(s: string)
    | Integer(i: int)
    | Timestamp(seconds: int)     // `datetime.fromtimestamp(seconds, tz=UTC)`
    | Rounded(n: Num, digits: nat)
    | Raw(v: Value)

  /** `STATUS_MAP` from const.py: the eight charger state codes. */
  const StatusNames: seq<string> :=
    ["power_up", "self_test", "standby", "car_connected", "charging", "charging_complete",
     "disabled", "error"]

  /**
   * `STATUS_MAP.get(value, "unknown")`. Python's `True == 1` and `False == 0`
   * hash alike, so a boolean finds the entry for 1 or 0; strings never match.
   */
  function StatusName(v: Value): (name: string)
    ensures v.VInt? && 0 <= v.i < 8 ==> name == StatusNames[v.i]
    ensures v.VBool? ==> name == StatusNames[if v.b then 1 else 0]
    ensures !(v.VInt? && 0 <= v.i < 8) && !v.VBool? ==> name == Unknown
  {
    match v
    case VInt(i) => if 0 <= i < |StatusNames| then StatusNames[i] else Unknown
    case VBool(b) => StatusNames[if b then 1 else 0]
    case _ => Unknown
  }

  /** A code reads as "unknown" exactly when it is not one of the eight codes (or a boolean). */
  lemma StatusUnknownIffUnmapped(v: Value)
    ensures StatusName(v) == Unknown <==> !(v.VInt? && 0 <= v.i < 8) && !v.VBool?
  {
    assert forall k :: 0 <= k < |StatusNames| ==> StatusNames[k] != Unknown;
  }

  /** Distinct codes show distinct names. */
  lemma StatusNamesDistinct(a: int, b: int)
    requires 0 <= a < 8 && 0 <= b < 8 && a != b
    ensures StatusName(VInt(a)) != StatusName(VInt(b))
  {
    assert forall i, j :: 0 <= i < j < |StatusNames| ==> StatusNames[i] != StatusNames[j];
  }

  predicate IsRoundedKey(key: string) {
    key in ["curMeas1", "curMeas2", "curMeas3", "sessionEnergy", "totalEnergy"]
  }

  /**
   * `EVSESensor.native_value`. A missing or None value reads "unknown"; a
   * conversion or a `fromtimestamp` that raises falls back to `str(value)`.
   */
  function SensorValue(key: string, snap: Dict): (r: Reading)
    ensures Get(snap, key) == VNone ==> r == Text(Unknown)
    ensures Get(snap, key) != VNone && key == "state" ==> r == Text(StatusName(Get(snap, key)))
    ensures Get(snap, key) != VNone && key == "sessionTime" ==>
              r == (match IntOfFloatStr(Get(snap, key))
                    case Some(i) => Integer(i)
                    case None => Text(Str(Get(snap, key))))
    ensures Get(snap, key) != VNone && key == SystemTime ==>
              r == (match IntOfFloatStr(Get(snap, key))
                    case Some(i) => if InDatetimeRange(i) then Timestamp(i) else Text(Str(Get(snap, key)))
                    case None => Text(Str(Get(snap, key))))
    ensures Get(snap, key) != VNone && !IsRoundedKey(key) && key !in ["sessionTime", SystemTime, "state"] ==>
              r == Raw(Get(snap, key))
  {
    var value := Get(snap, key);
    if value == VNone then Text(Unknown)
    else if key in ["curMeas1", "curMeas2", "curMeas3"] then
      match FloatOf(value)
      case Some(n) => Rounded(n, 2)
      case None => Text(Str(value))
    else if key in ["sessionEnergy", "totalEnergy"] then
      match FloatOf(value)
      case Some(n) => Rounded(n, 3)
      case None => Text(Str(value))
    else if key == "sessionTime" then
      match IntOfFloatStr(value)
      case Some(i) => Integer(i)
      case None => Text(Str(value))
    else if key == SystemTime then
      match IntOfFloatStr(value)
      case Some(i) => if InDatetimeRange(i) then Timestamp(i) else Text(Str(value))
      case None => Text(Str(value))
    else if key == "state" then Text(StatusName(value))
    else Raw(value)
  }

  /** Rounded readings keep the exact value they round; a value `float()` rejects reads as its text. */
  lemma RoundedReadings(key: string, snap: Dict)
    requires IsRoundedKey(key) && Get(snap, key) != VNone
    ensures var r := SensorValue(key, snap);
            && (FloatOf(Get(snap, key)).Some? ==> r.Rounded? && r.n == FloatOf(Get(snap, key)).value
                                                  && r.digits == (if key in ["sessionEnergy", "totalEnergy"] then 3 else 2))
            && (FloatOf(Get(snap, key)).None? ==> r == Text(Str(Get(snap, key))))
  {
  }

  // ------------------------------------------------- systemTime dedup

  /** `self._attr_native_value or "0"` */
  function OrZero(v: Value): (r: Value)
    ensures Truthy(v) ==> r == v
    ensures !Truthy(v) ==> r == VStr("0")
  {
    if Truthy(v) then v else VStr("0")
  }

  /** 0001-01-01T00:00:00Z and 9999-12-31T23:59:59Z as Unix timestamps. */
  const MinTimestamp := -62135596800
  const MaxTimestamp := 253402300799

  /**
   * Whether `datetime.fromtimestamp(ts, tz=UTC)` returns: a timestamp
   * outside years 1 to 9999 raises ValueError or OverflowError.
   */
  predicate InDatetimeRange(ts: int) {
    MinTimestamp <= ts <= MaxTimestamp
  }

  /**
   * Whether `_handle_coordinator_update` stores the new value and writes
   * state. For `systemTime` it does not when both timestamps convert, both
   * lie in the datetime range and they are at most two seconds apart; a
   * conversion or a `fromtimestamp` that raises is logged and the update
   * goes ahead.
   */
  function ShouldWrite(key: string, stored: Value, incoming: Value): (w: bool)
    ensures key != SystemTime ==> w
    ensures key == SystemTime && (IntOfFloatStr(OrZero(stored)).None? || IntOfFloatStr(incoming).None?) ==> w
    ensures key == SystemTime && IntOfFloatStr(OrZero(stored)).Some? && IntOfFloatStr(incoming).Some? ==>
              var oldTs := IntOfFloatStr(OrZero(stored)).value;
              var newTs := IntOfFloatStr(incoming).value;
              (w <==> !InDatetimeRange(oldTs) || !InDatetimeRange(newTs) || oldTs - newTs > 2 || newTs - oldTs > 2)
  {
    if key != SystemTime then true
    else match (IntOfFloatStr(OrZero(stored)), IntOfFloatStr(incoming))
      case (Some(oldTs), Some(newTs)) =>
        !InDatetimeRange(oldTs) || !InDatetimeRange(newTs) || oldTs - newTs > 2 || newTs - oldTs > 2
      case _ => true
  }

  /** A sensor entity's stored value and how many state writes it has made. */
  class EvseSensor {
    const key: string
    var stored: Value
    var writes: nat

    constructor (key: string)
      ensures this.key == key && stored == VNone && writes == 0
    {
      this.key := key;
      stored := VNone;
      writes := 0;
    }

    /** `EVSESensor._handle_coordinator_update` for a new snapshot. */
    method HandleUpdate(snap: Dict)
      modifies this
      ensures ShouldWrite(key, old(stored), Get(snap, key)) ==>
                stored == Get(snap, key) && writes == old(writes) + 1
      ensures !ShouldWrite(key, old(stored), Get(snap, key)) ==>
                stored == old(stored) && writes == old(writes)
    {
      var newValue := Get(snap, key);
      if key == SystemTime {
        var oldTs := IntOfFloatStr(OrZero(stored));
        var newTs := IntOfFloatStr(newValue);
        // a failed conversion or `fromtimestamp` is caught and the update goes ahead
        if oldTs.Some? && newTs.Some? && InDatetimeRange(oldTs.value) && InDatetimeRange(newTs.value) {
          var drift := newTs.value - oldTs.value;
          if -2 <= drift <= 2 {
            return;
          }
        }
      }
      stored := newValue;
      writes := writes + 1;
    }
  }

  /** Only `systemTime` is de-duplicated: every other key writes on every update. */
  lemma OtherKeysAlwaysWrite(key: string, stored: Value, incoming: Value)
    requires key != SystemTime
    ensures ShouldWrite(key, stored, incoming)
  {
  }

  /**
   * Two integer timestamps: the update is skipped exactly when both lie in
   * the datetime range and they differ by at most 2.
   */
  lemma SystemTimeWithinTwoSkipped(stored: int, incoming: int)
    ensures ShouldWrite(SystemTime, VInt(stored), VInt(incoming))
            <==> !InDatetimeRange(stored) || !InDatetimeRange(incoming)
                 || stored - incoming > 2 || incoming - stored > 2
  {
    assert IntOfFloatStr(OrZero(VInt(stored))) == Some(stored) by {
      if stored == 0 {
        ParseFloatOfIntToString(0);
        assert IntToString(0) == "0";
      }
    }
  }

  /** Before any update the stored value is None, read as timestamp 0. */
  lemma SystemTimeFromUnset(incoming: int)
    ensures ShouldWrite(SystemTime, VNone, VInt(incoming)) <==> incoming > 2 || incoming < -2
  {
    ParseFloatOfIntToString(0);
    assert IntToString(0) == "0";
  }

  /**
   * A timestamp past year 9999 makes `fromtimestamp` raise, so even an
   * identical repeat is stored and written.
   */
  lemma OutOfRangeTimestampWrites()
    ensures !InDatetimeRange(1000000000000)
    ensures ShouldWrite(SystemTime, VInt(1000000000000), VInt(1000000000000))
  {
    SystemTimeWithinTwoSkipped(1000000000000, 1000000000000);
  }

  /** A new value that does not convert (None, a boolean, text) is always stored. */
  lemma UnparsableSystemTimeWrites(stored: Value, incoming: Value)
    requires IntOfFloatStr(incoming).None?
    ensures ShouldWrite(SystemTime, stored, incoming)
  {
  }

  /**
   * Updating twice with the same convertible value writes at most once,
   * exactly when the timestamp lies in the datetime range.
   */
  lemma SystemTimeIdempotent(v: Value)
    requires IntOfFloatStr(v).Some?
    ensures !ShouldWrite(SystemTime, v, v) <==> InDatetimeRange(IntOfFloatStr(v).value)
  {
    if !Truthy(v) {
      match v {
        case VInt(i) =>
          assert i == 0;
          ParseFloatOfIntToString(0);
          assert IntToString(0) == "0";
        case _ =>
      }
    }
  }

  // ------------------------------------------------------ ground status

  const GroundOk := "✅"
  const GroundMissing := "❌"

  /** `EVSEGroundStatus.native_value`: ok exactly when `ground` (default 0) is truthy. */
  function GroundValue(snap: Dict): (s: string)
    ensures s == GroundOk <==> Truthy(GetOr(snap, "ground", VInt(0)))
    ensures s == GroundOk || s == GroundMissing
  {
    if Truthy(GetOr(snap, "ground", VInt(0))) then GroundOk else GroundMissing
  }

  /** `EVSEGroundStatus.icon`: one of two icons, the check exactly when ground is reported. */
  function GroundIcon(snap: Dict): (icon: string)
    ensures icon == "mdi:checkbox-marked-circle" <==> Truthy(GetOr(snap, "ground", VInt(0)))
    ensures icon == "mdi:checkbox-marked-circle" || icon == "mdi:close-circle-outline"
  {
    if GroundValue(snap) == GroundOk then "mdi:checkbox-marked-circle" else "mdi:close-circle-outline"
  }

  /** The check icon shows exactly when ground is reported; a missing key reads as no ground. */
  lemma GroundIconMatchesValue(snap: Dict)
    ensures GroundIcon(snap) == "mdi:checkbox-marked-circle" <==> Truthy(GetOr(snap, "ground", VInt(0)))
    ensures "ground" !in snap ==> GroundValue(snap) == GroundMissing && GroundIcon(snap) == "mdi:close-circle-outline"
  {
  }

  // ------------------------------------------------------- entity setup

  datatype SensorEntity = Measured(key: string, translationKey: string) | GroundStatus

  /** `SENSOR_DEFINITIONS`: key and translation key of the twelve base sensors. */
  const BaseSensors: seq<SensorEntity> := [
    Measured("state", "hunter_wifi_status"),
    Measured("currentSet", "hunter_wifi_current_set"),
    Measured("curMeas1", "hunter_wifi_current_phase_1"),
    Measured("voltMeas1", "hunter_wifi_voltage_phase_1"),
    Measured("temperature1", "hunter_wifi_temperature_box"),
    Measured("temperature2", "hunter_wifi_temperature_socket"),
    Measured("leakValue", "hunter_wifi_leakage"),
    Measured("sessionEnergy", "hunter_wifi_session_energy"),
    Measured("sessionTime", "hunter_wifi_session_time"),
    Measured("totalEnergy", "hunter_wifi_total_energy"),
    Measured("systemTime", "hunter_wifi_system_time"),
    Measured("powerMeas", "hunter_wifi_power")
  ]

  /** `THREE_PHASE_SENSORS` */
  const ThreePhaseSensors: seq<SensorEntity> := [
    Measured("curMeas2", "hunter_wifi_current_phase_2"),
    Measured("curMeas3", "hunter_wifi_current_phase_3"),
    Measured("voltMeas2", "hunter_wifi_voltage_phase_2"),
    Measured("voltMeas3", "hunter_wifi_voltage_phase_3")
  ]

  /** The device type: options first, then the entry's data, then "1_phase". */
  function DeviceType(options: Dict, data: Dict): (t: Value)
    ensures "device_type" in options ==> t == options["device_type"]
    ensures "device_type" !in options && "device_type" in data ==> t == data["device_type"]
    ensures "device_type" !in options && "device_type" !in data ==> t == VStr("1_phase")
  {
    GetOr(options, "device_type", GetOr(data, "device_type", VStr("1_phase")))
  }

  /** `async_setup_entry`: the base sensors, the phase 2/3 sensors for "3_phase", then ground status. */
  method SetupSensors(options: Dict, data: Dict) returns (entities: seq<SensorEntity>)
    ensures var threePhase := DeviceType(options, data) == VStr("3_phase");
            && |entities| == (if threePhase then 17 else 13)
            && entities[..12] == BaseSensors
            && (threePhase ==> entities[12..16] == ThreePhaseSensors)
            && entities[|entities| - 1] == GroundStatus
            && (forall i :: 0 <= i < |entities| - 1 ==> entities[i].Measured?)
  {
    var deviceType := DeviceType(options, data);
    entities := BaseSensors;
    if deviceType == VStr("3_phase") {
      entities := entities + ThreePhaseSensors;
    }
    entities := entities + [GroundStatus];
  }
}
