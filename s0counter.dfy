/** cmd/s0counter.go: the earlier revision's pulse handler, which looks the
    meter up by its pin, and its save/load of the meter readings. */
module S0Counter {
  import opened Base
  import Global

  /** One record of the earlier measurement file. */
  datatype SavedReading = SavedReading(meterReading: real, timeStamp: int)

  type SaveReadings = map<string, SavedReading>

  /** What was found at the data file's path: nothing, something that could
      not be written, read or decoded, or the decoded records. */
  datatype ReadingsFile = NoFile | Unusable(reason: string) | Found(records: SaveReadings)

  /** The readings and calculation times of the registered meters, which is
      exactly what saveMeasurements writes. */
  ghost function Readings(meters: map<string, Global.Meter>): (r: SaveReadings)
    reads meters.Values
  {
    map name | name in meters :: SavedReading(meters[name].meterReading, meters[name].timeStamp)
  }

  /** The records written when no data file exists. */
  function ZeroReadings(names: set<string>): SaveReadings {
    map name | name in names :: SavedReading(0.0, 0)
  }

  /** loadMeasurements' merge: a registered meter that has a record takes
      its reading and timestamp from it. */
  function Merge(current: SaveReadings, records: SaveReadings): (r: SaveReadings) {
    map name | name in current :: if name in records then records[name] else current[name]
  }

  /** Every registered name has a meter object of its own. */
  predicate Distinct(meters: map<string, Global.Meter>) {
    forall a, b :: a in meters && b in meters && a != b ==> meters[a] != meters[b]
  }

  /** Merging keeps the registered names; a name with a record takes it,
      one without keeps its values; names not registered are ignored. */
  lemma MergeEffect(current: SaveReadings, records: SaveReadings, name: string)
    ensures Merge(current, records).Keys == current.Keys
    ensures name in current && name in records ==> Merge(current, records)[name] == records[name]
    ensures name in current && name !in records ==> Merge(current, records)[name] == current[name]
    ensures name !in current ==> name !in Merge(current, records)
  {
  }

  /** Round trip: loading what saving wrote changes no reading and no
      timestamp. */
  lemma {:induction false} SaveLoadRoundTrip(current: SaveReadings)
    ensures Merge(current, current) == current
  {
    assert Merge(current, current).Keys == current.Keys;
  }

  /** A missing data file resets every registered meter's reading and
      timestamp to zero. */
  lemma {:induction false} MissingFileZeroes(current: SaveReadings)
    ensures Merge(current, ZeroReadings(current.Keys)) == ZeroReadings(current.Keys)
  {
    var r := Merge(current, ZeroReadings(current.Keys));
    assert r.Keys == ZeroReadings(current.Keys).Keys;
  }

  /** saveMeasurements without the YAML encoding and the file write: one
      record per meter with its reading and the meter-level timestamp (not
      the time of the last pulse). */
  method SaveMeasurements(meters: map<string, Global.Meter>) returns (s: SaveReadings)
    ensures s == Readings(meters)
    ensures forall name :: name in s ==> s[name].timeStamp == meters[name].timeStamp
  {
    s := map[];
    var names := meters.Keys;
    while names != {}
      invariant names <= meters.Keys
      invariant s.Keys == meters.Keys - names
      invariant forall name :: name in s ==>
        s[name] == SavedReading(meters[name].meterReading, meters[name].timeStamp)
      decreases names
    {
      var name :| name in names;
      var m := meters[name];
      s := s[name := SavedReading(m.meterReading, m.timeStamp)];
      names := names - {name};
    }
  }

  /** loadMeasurements without the YAML encoding and the file access. A
      failure leaves every meter as it was; a missing file is first created
      with zero records for every registered meter, which are then loaded.
      Only reading and timestamp of registered meters change. */
  method LoadMeasurements(meters: map<string, Global.Meter>, file: ReadingsFile)
    returns (err: Option<string>, created: Option<SaveReadings>)
    requires Distinct(meters)
    modifies meters.Values
    ensures file.Unusable? ==> err == Some(file.reason) && created == None
    ensures file.Unusable? ==> forall name :: name in meters ==> unchanged(meters[name])
    ensures file.NoFile? ==> err == None && created == Some(ZeroReadings(meters.Keys))
    ensures file.Found? ==> err == None && created == None
    ensures !file.Unusable? ==>
      var records := if file.NoFile? then ZeroReadings(meters.Keys) else file.records;
      Readings(meters) == Merge(old(Readings(meters)), records)
    ensures forall name :: name in meters ==>
      && meters[name].config == old(meters[name].config)
      && meters[name].s0 == old(meters[name].s0)
      && meters[name].flowPerHour == old(meters[name].flowPerHour)
  {
    created := None;
    var records: SaveReadings;
    match file {
      case Unusable(reason) =>
        return Some(reason), None;
      case NoFile =>
        records := ZeroReadings(meters.Keys);
        created := Some(records);
      case Found(rs) =>
        records := rs;
    }
    var names := records.Keys;
    while names != {}
      invariant names <= records.Keys
      invariant forall name :: name in meters ==>
        && meters[name].meterReading == (if name in records && name !in names then records[name].meterReading else old(meters[name].meterReading))
        && meters[name].timeStamp == (if name in records && name !in names then records[name].timeStamp else old(meters[name].timeStamp))
      invariant forall name :: name in meters ==>
        && meters[name].config == old(meters[name].config)
        && meters[name].s0 == old(meters[name].s0)
        && meters[name].flowPerHour == old(meters[name].flowPerHour)
      decreases names
    {
      var name :| name in names;
      if name in meters {
        var m := meters[name];
        m.meterReading := records[name].meterReading;
        m.timeStamp := records[name].timeStamp;
      }
      names := names - {name};
    }
    err := None;
  }

  /** increaseImpulse(pin) with the clock reading `now`: the first meter met
      whose pin is `pin` (Go's map order is unspecified, so any of them) adds
      one pulse, its scale factor to its reading and `now` as the time of its
      last pulse; no other meter changes. `updated` names the meter chosen,
      None when no meter has that pin, in which case nothing changes. */
  method IncreaseImpulse(allMeters: map<string, Global.Meter>, pin: int, now: int)
    returns (ghost updated: Option<string>)
    modifies allMeters.Values
    ensures updated.None? <==> forall name :: name in allMeters ==> allMeters[name].config.gpio != pin
    ensures updated.None? ==> forall name :: name in allMeters ==> unchanged(allMeters[name])
    ensures updated.Some? ==> updated.value in allMeters
    ensures updated.Some? ==>
      var m := allMeters[updated.value];
      && m.config.gpio == pin
      && m.meterReading == old(m.meterReading) + m.config.scaleFactor
      && m.s0 == old(m.s0).(counter := IncI64(old(m.s0.counter)), timeStamp := now)
      && m.config == old(m.config) && m.timeStamp == old(m.timeStamp) && m.flowPerHour == old(m.flowPerHour)
    ensures updated.Some? ==> forall name :: name in allMeters && allMeters[name] != allMeters[updated.value] ==>
      unchanged(allMeters[name])
  {
    var names := allMeters.Keys;
    while names != {}
      invariant names <= allMeters.Keys
      invariant forall name :: name in allMeters && name !in names ==> allMeters[name].config.gpio != pin
      invariant forall name :: name in allMeters ==> unchanged(allMeters[name])
      decreases names
    {
      var name :| name in names;
      var m := allMeters[name];
      if m.config.gpio == pin {
        m.meterReading := m.meterReading + m.config.scaleFactor;
        m.s0 := m.s0.(counter := IncI64(m.s0.counter));
        m.s0 := m.s0.(timeStamp := now);
        return Some(name);
      }
      names := names - {name};
    }
    return None;
  }
}
