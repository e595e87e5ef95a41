/**
 * The irrigation controller's action buttons: start or stop a zone, start a
 * program, stop every zone. Each press is a GET to a URL built from the
 * host and the button's zone or program; the zone start reads its duration
 * from the shared duration map.
 */
module Button {
  import opened PyValue
  import ZoneNumber

  const StartZone := "start_zone"
  const StopZone := "stop_zone"
  const StartProgram := "start_program"
  const StopAllZones := "stop_all_zones"

  /** The duration a zone starts with when no number entity has stored one. */
  const FallbackMinutes := 5

  /** `HunterActionButton`'s configuration: the action and its zone, program or zone list. */
  datatype ActionButton = ActionButton(action: string, zone: Option<int>, program: Option<int>, zones: seq<int>)

  /** What one GET produced. `raise_for_status` turns a status of 400 or more into a client error. */
  datatype Outcome =
    | Completed(status: int)
    | ConnectionFailed  // an aiohttp.ClientError
    | TimedOut          // the 10-second timeout
    | ValueFailed       // a ValueError
    | Crashed           // any other exception

  /** Whether the stop-all loop's `except (ClientError, TimeoutError)` catches what the GET raised. */
  predicate Caught(o: Outcome) {
    o.Completed? || o.ConnectionFailed? || o.TimedOut?
  }

  /** Whether a single press's `except (ClientError, TimeoutError, ValueError)` catches it. */
  predicate PressCatches(o: Outcome) {
    !o.Crashed?
  }

  /** `f"{x}"` for an optional int: "None" when absent. */
  function OptText(x: Option<int>): string {
    match x
    case Some(v) => IntToString(v)
    case None => "None"
  }

  /** The request URLs a button can build. */
  datatype Url =
    | StopZoneUrl(host: string, zone: int)
    | StartZoneUrl(host: string, zone: int, minutes: int)
    | StartProgramUrl(host: string, program: Option<int>)

  /** The URL as the f-strings lay it out. */
  function Text(u: Url): string {
    match u
    case StopZoneUrl(host, zone) => "http://" + host + "/api/stop/zone/" + IntToString(zone)
    case StartZoneUrl(host, zone, minutes) =>
      "http://" + host + "/api/start/zone/" + IntToString(zone) + "?time=" + IntToString(minutes)
    case StartProgramUrl(host, program) => "http://" + host + "/api/start/program/" + OptText(program)
  }

  /** Two stop URLs for the same host are the same text exactly when they name the same zone. */
  lemma StopUrlTextInjective(host: string, z1: int, z2: int)
    ensures Text(StopZoneUrl(host, z1)) == Text(StopZoneUrl(host, z2)) <==> z1 == z2
  {
    var prefix := "http://" + host + "/api/stop/zone/";
    var t1, t2 := Text(StopZoneUrl(host, z1)), Text(StopZoneUrl(host, z2));
    if t1 == t2 {
      assert t1 == prefix + IntToString(z1) && t2 == prefix + IntToString(z2);
      assert t1[|prefix|..] == IntToString(z1);
      assert t2[|prefix|..] == IntToString(z2);
      IntToStringInjective(z1, z2);
    }
  }

  /** A zone start URL carries the duration after `?time=`, as its last component. */
  lemma StartUrlTextEndsWithTime(host: string, zone: int, minutes: int)
    ensures var t := Text(StartZoneUrl(host, zone, minutes));
            var d := IntToString(minutes);
            |d| + 6 <= |t| && t[|t| - |d| - 6..] == "?time=" + d
  {
    var d := IntToString(minutes);
    var head := "http://" + host + "/api/start/zone/" + IntToString(zone);
    var t := Text(StartZoneUrl(host, zone, minutes));
    assert t == head + ("?time=" + d);
    assert t[|head|..] == "?time=" + d;
  }

  /** `zone_durations.get(zone, 5)` */
  function DurationFor(durations: map<int, int>, zone: int): (minutes: int)
    ensures zone in durations ==> minutes == durations[zone]
    ensures zone !in durations ==> minutes == FallbackMinutes
  {
    if zone in durations then durations[zone] else FallbackMinutes
  }

  /**
   * `_build_url`: with a zone, the start URL for "start_zone" and the stop
   * URL for any other action; without one, the program URL for
   * "start_program"; None stands for the ValueError raised otherwise.
   */
  function BuildUrl(host: string, b: ActionButton, durations: map<int, int>): (url: Option<Url>)
    ensures b.zone.Some? && b.action == StartZone ==>
              url == Some(StartZoneUrl(host, b.zone.value, DurationFor(durations, b.zone.value)))
    ensures b.zone.Some? && b.action != StartZone ==> url == Some(StopZoneUrl(host, b.zone.value))
    ensures b.zone.None? ==> (url.Some? <==> b.action == StartProgram)
    ensures b.zone.None? && url.Some? ==> url.value == StartProgramUrl(host, b.program)
  {
    match b.zone
    case Some(z) =>
      if b.action == StartZone then Some(StartZoneUrl(host, z, DurationFor(durations, z)))
      else Some(StopZoneUrl(host, z))
    case None =>
      if b.action == StartProgram then Some(StartProgramUrl(host, b.program)) else None
  }

  /** What a press did: the URLs requested, in order, and whether an exception escaped. */
  datatype PressResult = PressResult(requested: seq<Url>, escaped: bool)

  /** `_async_stop_all_zones`, as a function of the zones and the outcome of each GET. */
  function StopAll(host: string, zones: seq<int>, outcomes: seq<Outcome>): (r: PressResult)
    requires |outcomes| == |zones|
    ensures |r.requested| <= |zones|
    decreases |zones|
  {
    if zones == [] then PressResult([], false)
    else if !Caught(outcomes[0]) then PressResult([StopZoneUrl(host, zones[0])], true)
    else
      var rest := StopAll(host, zones[1..], outcomes[1..]);
      PressResult([StopZoneUrl(host, zones[0])] + rest.requested, rest.escaped)
  }

  /** The stop-all loop: one GET per configured zone, each failure caught on its own. */
  method StopAllZonesLoop(host: string, zones: seq<int>, outcomes: seq<Outcome>) returns (r: PressResult)
    requires |outcomes| == |zones|
    ensures r == StopAll(host, zones, outcomes)
  {
    var requested: seq<Url> := [];
    var i := 0;
    while i < |zones|
      invariant 0 <= i <= |zones|
      invariant StopAll(host, zones, outcomes) == After(requested, StopAll(host, zones[i..], outcomes[i..]))
    {
      assert zones[i..][1..] == zones[i + 1..] && outcomes[i..][1..] == outcomes[i + 1..];
      requested := requested + [StopZoneUrl(host, zones[i])];
      if !Caught(outcomes[i]) {
        return PressResult(requested, true);
      }
      i := i + 1;
    }
    r := PressResult(requested, false);
  }

  /** The requests `earlier` followed by what `rest` did. */
  function After(earlier: seq<Url>, rest: PressResult): PressResult {
    PressResult(earlier + rest.requested, rest.escaped)
  }

  /**
   * With no uncaught exception, every configured zone gets its stop
   * request, in order, whatever the other requests did.
   */
  lemma {:induction false} StopAllReachesEveryZone(host: string, zones: seq<int>, outcomes: seq<Outcome>)
    requires |outcomes| == |zones|
    requires forall i :: 0 <= i < |outcomes| ==> Caught(outcomes[i])
    ensures |StopAll(host, zones, outcomes).requested| == |zones|
    ensures !StopAll(host, zones, outcomes).escaped
    decreases |zones|
  {
    if zones != [] {
      StopAllReachesEveryZone(host, zones[1..], outcomes[1..]);
    }
  }

  /** An escaping exception stops the loop right after the zone that raised it. */
  lemma {:induction false} StopAllStopsAtCrash(host: string, zones: seq<int>, outcomes: seq<Outcome>, k: nat)
    requires |outcomes| == |zones| && k < |zones|
    requires forall i :: 0 <= i < k ==> Caught(outcomes[i])
    requires !Caught(outcomes[k])
    ensures |StopAll(host, zones, outcomes).requested| == k + 1
    ensures StopAll(host, zones, outcomes).escaped
    decreases k
  {
    if k > 0 {
      StopAllStopsAtCrash(host, zones[1..], outcomes[1..], k - 1);
    }
  }

  /** Stop-all requests the zones' stop URLs in zone order: the n-th request stops the n-th zone. */
  lemma {:induction false} StopAllInZoneOrder(host: string, zones: seq<int>, outcomes: seq<Outcome>)
    requires |outcomes| == |zones|
    ensures var r := StopAll(host, zones, outcomes);
            forall i :: 0 <= i < |r.requested| ==> r.requested[i] == StopZoneUrl(host, zones[i])
    decreases |zones|
  {
    if zones != [] && Caught(outcomes[0]) {
      var rest := StopAll(host, zones[1..], outcomes[1..]);
      StopAllInZoneOrder(host, zones[1..], outcomes[1..]);
      var r := StopAll(host, zones, outcomes);
      assert r.requested == [StopZoneUrl(host, zones[0])] + rest.requested;
      forall i | 1 <= i < |r.requested| ensures r.requested[i] == StopZoneUrl(host, zones[i]) {
        assert r.requested[i] == rest.requested[i - 1];
        assert zones[1..][i - 1] == zones[i];
      }
    }
  }

  /**
   * `async_press`: stop-all runs its loop; every other button requests its
   * URL, and a build failure or any other ValueError, a client error or a
   * timeout is caught and logged.
   */
  function Press(host: string, b: ActionButton, durations: map<int, int>, outcomes: seq<Outcome>): (r: PressResult)
    requires b.action == StopAllZones ==> |outcomes| == |b.zones|
    requires b.action != StopAllZones ==> |outcomes| == 1
    ensures b.action != StopAllZones && BuildUrl(host, b, durations).None? ==> r == PressResult([], false)
    ensures b.action != StopAllZones && BuildUrl(host, b, durations).Some? ==>
              r == PressResult([BuildUrl(host, b, durations).value], !PressCatches(outcomes[0]))
  {
    if b.action == StopAllZones then StopAll(host, b.zones, outcomes)
    else match BuildUrl(host, b, durations)
      case None => PressResult([], false)
      case Some(url) => PressResult([url], !PressCatches(outcomes[0]))
  }

  /**
   * A ValueError from the GET is swallowed by a single press but escapes the
   * stop-all loop, whose `except` names only client errors and timeouts.
   */
  lemma ValueErrorCaughtOnlyByPress(host: string, zone: int, durations: map<int, int>)
    ensures Press(host, ActionButton(StopZone, Some(zone), None, []), durations, [ValueFailed])
            == PressResult([StopZoneUrl(host, zone)], false)
    ensures StopAll(host, [zone], [ValueFailed]) == PressResult([StopZoneUrl(host, zone)], true)
  {
  }

  /** An unsupported action requests nothing and raises nothing out of the press. */
  lemma UnsupportedActionIsSwallowed(host: string, action: string, program: Option<int>,
                                     durations: map<int, int>, o: Outcome)
    requires action != StartProgram && action != StopAllZones
    ensures Press(host, ActionButton(action, None, program, []), durations, [o]) == PressResult([], false)
  {
  }

  /** A zone start uses the duration the zone's number entity stored, else 5 minutes. */
  lemma StartUsesStoredDuration(host: string, zone: int, durations: map<int, int>, o: Outcome)
    ensures Press(host, ActionButton(StartZone, Some(zone), None, []), durations, [o]).requested
            == [StartZoneUrl(host, zone, if zone in durations then durations[zone] else 5)]
  {
  }

  // -------------------------------------------------------------- naming

  predicate StartsWith(s: string, prefix: string) {
    |prefix| <= |s| && s[..|prefix|] == prefix
  }

  /** The icon: play for every action whose name starts with "start". */
  function Icon(action: string): (icon: string)
    ensures icon == "mdi:play-circle-outline" <==> StartsWith(action, "start")
  {
    if StartsWith(action, "start") then "mdi:play-circle-outline" else "mdi:stop-circle-outline"
  }

  /** The unique id: action, then zone or program, then the entry id, joined by underscores. */
  function UniqueId(b: ActionButton, entryId: string): (id: string)
    ensures StartsWith(id, b.action + "_")
    ensures |"_" + entryId| <= |id| && id[|id| - |"_" + entryId|..] == "_" + entryId
  {
    if b.action == StopAllZones then b.action + "_" + entryId
    else if b.zone.Some? then b.action + "_" + IntToString(b.zone.value) + "_" + entryId
    else b.action + "_" + OptText(b.program) + "_" + entryId
  }

  /** The display name. */
  function Name(b: ActionButton): string {
    if b.action == StopAllZones then "Stop All Zones"
    else if b.zone.Some? then
      (if b.action == StartZone then "Start" else "Stop") + " Zone " + IntToString(b.zone.value)
    else "Start Program " + OptText(b.program)
  }

  /** The suggested object id: the device slug, the action, and the zone or program. */
  function ObjectId(slug: string, b: ActionButton): (id: string)
    ensures StartsWith(id, slug + "_" + b.action)
  {
    if b.action == StopAllZones then slug + "_" + b.action
    else if b.zone.Some? then slug + "_" + b.action + "_" + IntToString(b.zone.value)
    else slug + "_" + b.action + "_" + OptText(b.program)
  }

  /** The four actions the setup creates get the play icon exactly for the two starts. */
  lemma IconsOfActions()
    ensures Icon(StartZone) == "mdi:play-circle-outline"
    ensures Icon(StartProgram) == "mdi:play-circle-outline"
    ensures Icon(StopZone) == "mdi:stop-circle-outline"
    ensures Icon(StopAllZones) == "mdi:stop-circle-outline"
  {
    assert StartZone[..5] == "start" && StartProgram[..5] == "start";
    assert StopZone[..5][2] == 'o' && StopAllZones[..5][2] == 'o';
  }

  /** Zone buttons are named, identified and given object ids after their zone. */
  lemma ZoneButtonNames(slug: string, zone: int, entryId: string)
    ensures Name(ActionButton(StartZone, Some(zone), None, [])) == "Start Zone " + IntToString(zone)
    ensures Name(ActionButton(StopZone, Some(zone), None, [])) == "Stop Zone " + IntToString(zone)
    ensures UniqueId(ActionButton(StartZone, Some(zone), None, []), entryId)
            == "start_zone_" + IntToString(zone) + "_" + entryId
    ensures ObjectId(slug, ActionButton(StartZone, Some(zone), None, []))
            == slug + "_start_zone_" + IntToString(zone)
    ensures ObjectId(slug, ActionButton(StopAllZones, None, None, [])) == slug + "_stop_all_zones"
  {
    assert "Start" + " Zone " == "Start Zone ";
    assert "Stop" + " Zone " == "Stop Zone ";
    assert StartZone + "_" == "start_zone_";
    assert slug + "_" + StartZone + "_" == slug + "_start_zone_";
    assert slug + "_" + StopAllZones == slug + "_stop_all_zones";
  }

  /** The stop-all and program buttons' names, unique ids and object ids. */
  lemma OtherButtonNames(slug: string, program: int, zones: seq<int>, entryId: string)
    ensures Name(ActionButton(StopAllZones, None, None, zones)) == "Stop All Zones"
    ensures Name(ActionButton(StartProgram, None, Some(program), [])) == "Start Program " + IntToString(program)
    ensures UniqueId(ActionButton(StopAllZones, None, None, zones), entryId) == "stop_all_zones_" + entryId
    ensures UniqueId(ActionButton(StartProgram, None, Some(program), []), entryId)
            == "start_program_" + IntToString(program) + "_" + entryId
    ensures ObjectId(slug, ActionButton(StartProgram, None, Some(program), []))
            == slug + "_start_program_" + IntToString(program)
  {
    assert StopAllZones + "_" == "stop_all_zones_";
    assert StartProgram + "_" == "start_program_";
    assert slug + "_" + StartProgram + "_" == slug + "_start_program_";
  }

  /** The shapes the setup builds: a zone start or stop, a program start, the stop-all. */
  predicate Shaped(b: ActionButton) {
    || ((b.action == StartZone || b.action == StopZone) && b.zone.Some? && b.program.None?)
    || (b.action == StartProgram && b.zone.None? && b.program.Some?)
    || (b.action == StopAllZones && b.zone.None? && b.program.None?)
  }

  /** The number a shaped button's unique id carries, if any. */
  function IdNumber(b: ActionButton): Option<int> {
    if b.zone.Some? then b.zone else b.program
  }

  lemma CommonSuffix(x: string, y: string, t: string)
    requires x + t == y + t
    ensures x == y
  {
    assert |x| == |y|;
    assert x == (x + t)[..|x|];
    assert y == (y + t)[..|y|];
  }

  lemma CommonPrefix(a: string, x: string, y: string)
    requires a + x == a + y
    ensures x == y
  {
    assert x == (a + x)[|a|..];
    assert y == (a + y)[|a|..];
  }

  /** A shaped button's unique id is its action, an underscore, then the number and an underscore (if any), then the entry id. */
  lemma UniqueIdLayout(b: ActionButton, entryId: string)
    requires Shaped(b)
    ensures b.action == StopAllZones ==> UniqueId(b, entryId) == b.action + ("_" + entryId)
    ensures b.action != StopAllZones ==>
              IdNumber(b).Some?
              && UniqueId(b, entryId) == b.action + ("_" + (IntToString(IdNumber(b).value) + ("_" + entryId)))
  {
  }

  /** The characters at positions 2 and 6 tell the four actions apart. */
  lemma ActionsApart()
    ensures StartZone[2] == 'a' && StartZone[6] == 'z'
    ensures StartProgram[2] == 'a' && StartProgram[6] == 'p'
    ensures StopZone[2] == 'o' && StopZone[5] == 'z'
    ensures StopAllZones[2] == 'o' && StopAllZones[5] == 'a'
  {
  }

  /** Shaped buttons with the same unique id have the same action. */
  lemma UniqueIdAction(b1: ActionButton, b2: ActionButton, entryId: string)
    requires Shaped(b1) && Shaped(b2)
    requires UniqueId(b1, entryId) == UniqueId(b2, entryId)
    ensures b1.action == b2.action
  {
    var id := UniqueId(b1, entryId);
    UniqueIdLayout(b1, entryId);
    UniqueIdLayout(b2, entryId);
    ActionsApart();
    assert |id| >= 7 by {
      if b1.action != StopAllZones {
        IntToStringPlain(IdNumber(b1).value);
      }
    }
    assert id[2] == b1.action[2] && id[2] == b2.action[2];
    assert id[5] == b1.action[5] && id[5] == b2.action[5];
    assert id[6] == b1.action[6] && id[6] == b2.action[6];
  }

  /**
   * Within one entry, shaped buttons with the same unique id have the same
   * action, zone and program: distinct zones and programs give distinct ids.
   */
  lemma UniqueIdDetermines(b1: ActionButton, b2: ActionButton, entryId: string)
    requires Shaped(b1) && Shaped(b2)
    requires UniqueId(b1, entryId) == UniqueId(b2, entryId)
    ensures b1.action == b2.action && b1.zone == b2.zone && b1.program == b2.program
  {
    UniqueIdAction(b1, b2, entryId);
    UniqueIdLayout(b1, entryId);
    UniqueIdLayout(b2, entryId);
    if b1.action != StopAllZones {
      var n1, n2 := IdNumber(b1).value, IdNumber(b2).value;
      CommonPrefix(b1.action, "_" + (IntToString(n1) + ("_" + entryId)), "_" + (IntToString(n2) + ("_" + entryId)));
      CommonPrefix("_", IntToString(n1) + ("_" + entryId), IntToString(n2) + ("_" + entryId));
      CommonSuffix(IntToString(n1), IntToString(n2), "_" + entryId);
      IntToStringInjective(n1, n2);
    }
  }

  // --------------------------------------------------------------- setup

  function StartZoneButton(z: int): ActionButton { ActionButton(StartZone, Some(z), None, []) }
  function StopZoneButton(z: int): ActionButton { ActionButton(StopZone, Some(z), None, []) }
  function ProgramButton(p: int): ActionButton { ActionButton(StartProgram, None, Some(p), []) }

  /**
   * `async_setup_entry`: for each zone a start then a stop button, then one
   * start button per program, then a single stop-all over all the zones.
   */
  method SetupButtons(zones: seq<int>, programs: seq<int>) returns (entities: seq<ActionButton>)
    ensures |entities| == 2 * |zones| + |programs| + 1
    ensures forall i :: 0 <= i < |zones| ==>
              entities[2 * i] == StartZoneButton(zones[i]) && entities[2 * i + 1] == StopZoneButton(zones[i])
    ensures forall j :: 0 <= j < |programs| ==> entities[2 * |zones| + j] == ProgramButton(programs[j])
    ensures entities[|entities| - 1] == ActionButton(StopAllZones, None, None, zones)
  {
    entities := [];
    var i := 0;
    while i < |zones|
      invariant 0 <= i <= |zones| && |entities| == 2 * i
      invariant forall k :: 0 <= k < i ==>
                  entities[2 * k] == StartZoneButton(zones[k]) && entities[2 * k + 1] == StopZoneButton(zones[k])
    {
      entities := entities + [StartZoneButton(zones[i]), StopZoneButton(zones[i])];
      i := i + 1;
    }
    var j := 0;
    while j < |programs|
      invariant 0 <= j <= |programs| && |entities| == 2 * |zones| + j
      invariant forall k :: 0 <= k < |zones| ==>
                  entities[2 * k] == StartZoneButton(zones[k]) && entities[2 * k + 1] == StopZoneButton(zones[k])
      invariant forall k :: 0 <= k < j ==> entities[2 * |zones| + k] == ProgramButton(programs[k])
    {
      entities := entities + [ProgramButton(programs[j])];
      j := j + 1;
    }
    entities := entities + [ActionButton(StopAllZones, None, None, zones)];
  }

  /** After a zone's number entity set `v`, pressing that zone's start button requests `?time=v`. */
  lemma StartAfterSet(host: string, zone: int, durations: map<int, int>, v: int, o: Outcome)
    requires ZoneNumber.MinMinutes <= v <= ZoneNumber.MaxMinutes
    ensures Press(host, StartZoneButton(zone), durations[zone := v], [o]).requested
            == [StartZoneUrl(host, zone, v)]
  {
  }
}
