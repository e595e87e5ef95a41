/**
 * The irrigation zone durations: one number entity per zone holds the
 * watering time in minutes and copies it into the duration map that the
 * start buttons read.
 */
module ZoneNumber {
  import opened PyValue

  const MinMinutes := 1
  const MaxMinutes := 240

  /** The entry's `zone_durations` dictionary, shared by the number and button entities. */
  class DurationStore {
    var durations: map<int, int>

    constructor ()
      ensures durations == map[]
    {
      durations := map[];
    }
  }

  /**
   * `int(native_value or DEFAULT_ZONE_DURATION_MINUTES)`: a missing or zero
   * value is stored as the default.
   */
  function StoredDuration(value: Option<int>, default: int): (d: int)
    ensures value.None? || value == Some(0) ==> d == default
    ensures value.Some? && value.value != 0 ==> d == value.value
  {
    match value
    case Some(v) => if v != 0 then v else default
    case None => default
  }

  /** `HunterZoneDurationNumber`: the zone it edits, its value, and the shared store. */
  class ZoneDurationNumber {
    const zone: int
    const default: int
    const store: DurationStore
    var value: Option<int>
    var writes: nat

    /** The value starts at the default duration; nothing is stored yet. */
    constructor (zone: int, default: int, store: DurationStore)
      ensures this.zone == zone && this.default == default && this.store == store
      ensures value == Some(default) && writes == 0
    {
      this.zone := zone;
      this.default := default;
      this.store := store;
      value := Some(default);
      writes := 0;
    }

    /** `_update_runtime_duration`: this zone's entry is set and every other zone's is kept. */
    method UpdateRuntimeDuration()
      modifies store
      ensures store.durations == old(store.durations)[zone := StoredDuration(value, default)]
    {
      store.durations := store.durations[zone := StoredDuration(value, default)];
    }

    /**
     * `async_added_to_hass`: a restored value (which may itself be None)
     * replaces the current one, then the store is synced.
     */
    method AddedToHass(lastData: Option<Option<int>>)
      modifies this, store
      ensures value == (if lastData.Some? then lastData.value else old(value))
      ensures store.durations == old(store.durations)[zone := StoredDuration(value, default)]
      ensures writes == old(writes)
    {
      if lastData.Some? {
        value := lastData.value;
      }
      UpdateRuntimeDuration();
    }

    /** `async_set_native_value`, for a value in the declared range 1..240. */
    method SetNativeValue(v: int)
      requires MinMinutes <= v <= MaxMinutes
      modifies this, store
      ensures value == Some(v) && writes == old(writes) + 1
      ensures store.durations == old(store.durations)[zone := v]
    {
      value := Some(v);
      UpdateRuntimeDuration();
      writes := writes + 1;
    }
  }

  /** `async_setup_entry`: one duration entity per configured zone, in order, all sharing one store. */
  method SetupNumbers(zones: seq<int>, default: int, store: DurationStore)
    returns (entities: seq<ZoneDurationNumber>)
    ensures |entities| == |zones|
    ensures forall i :: 0 <= i < |zones| ==>
              entities[i].zone == zones[i] && entities[i].store == store
              && entities[i].default == default && entities[i].value == Some(default)
  {
    entities := [];
    var i := 0;
    while i < |zones|
      invariant 0 <= i <= |zones| && |entities| == i
      invariant forall k :: 0 <= k < i ==>
                  entities[k].zone == zones[k] && entities[k].store == store
                  && entities[k].default == default && entities[k].value == Some(default)
    {
      var entity := new ZoneDurationNumber(zones[i], default, store);
      entities := entities + [entity];
      i := i + 1;
    }
  }
}
