/** pkg/app/measurement.go: the counter reading and the gauge (rate) derived
    from a meter's pulse data, the rounding they are published with, and the
    merge of the saved measurements into the configured meters. */
module Measurement {
  import opened Base
  import opened Config
  import Meter
  import RpiPort

  /** 10 to the power `p` (math.Pow(10, float64(p))), for negative `p` too. */
  function Pow10(p: int): (r: real)
    ensures r > 0.0
    ensures p >= 0 ==> r >= 1.0
    decreases if p >= 0 then p else -p
  {
    if p == 0 then 1.0
    else if p > 0 then 10.0 * Pow10(p - 1)
    else Pow10(p + 1) / 10.0
  }

  /** math.Round: the nearest integer, halves rounded away from zero. */
  function Round(x: real): (n: int)
    ensures x >= 0.0 ==> x - 0.5 < n as real <= x + 0.5
    ensures x < 0.0 ==> x - 0.5 <= n as real < x + 0.5
  {
    if x >= 0.0 then (x + 0.5).Floor else -((-x + 0.5).Floor)
  }

  lemma RoundMonotone(x: real, y: real)
    requires x <= y
    ensures Round(x) <= Round(y)
  {
  }

  /** `r` is a whole number of units of 1/P. */
  predicate WholeUnits(r: real, P: real) {
    (r * P).Floor as real == r * P
  }

  /** `num` rounded to a whole number of 1/P. */
  function RoundTo(num: real, P: real): real
    requires P > 0.0
  {
    (Round(num * P) as real) / P
  }

  /** `r` is the whole number of 1/P nearest to `num`, a tie going away from
      zero: the interval it lies in is closed on the side away from zero. */
  predicate RoundedTo(r: real, num: real, P: real)
    requires P > 0.0
  {
    && WholeUnits(r, P)
    && (num >= 0.0 ==> num - 0.5 / P < r <= num + 0.5 / P)
    && (num < 0.0 ==> num - 0.5 / P <= r < num + 0.5 / P)
  }

  lemma {:induction false} RoundToSpec(num: real, P: real)
    requires P > 0.0
    ensures RoundedTo(RoundTo(num, P), num, P)
  {
    var x := num * P;
    var n := Round(x);
    assert RoundTo(num, P) * P == n as real;
    DivSum(x, 0.5, P);
    DivSum(x, -0.5, P);
    assert x / P == num;
    if num >= 0.0 {
      assert x >= 0.0;
      DivStrict(x - 0.5, n as real, P);
      DivMonotone(n as real, x + 0.5, P);
    } else {
      assert x < 0.0;
      DivMonotone(x - 0.5, n as real, P);
      DivStrict(n as real, x + 0.5, P);
    }
  }

  /** toFixed: `num` rounded to `p` decimal places, i.e. to the nearest whole
      number of 10^-p, halves away from zero. */
  function ToFixed(num: real, p: int): (r: real)
    ensures RoundedTo(r, num, Pow10(p))
  {
    RoundToSpec(num, Pow10(p));
    RoundTo(num, Pow10(p))
  }

  lemma DivSum(a: real, b: real, P: real)
    requires P > 0.0
    ensures (a + b) / P == a / P + b / P
  {
  }

  lemma DivMonotone(a: real, b: real, P: real)
    requires a <= b && P > 0.0
    ensures a / P <= b / P
  {
    assert a / P * P == a && b / P * P == b;
  }

  lemma DivStrict(a: real, b: real, P: real)
    requires a < b && P > 0.0
    ensures a / P < b / P
  {
    assert a / P * P == a && b / P * P == b;
  }

  /** Multiplying by a positive factor keeps a strict order. */
  lemma MulStrict(a: real, b: real, k: real)
    requires a < b && k > 0.0
    ensures a * k < b * k
  {
  }

  /** Rounding to a fixed number of places never reverses an order. */
  lemma ToFixedMonotone(x: real, y: real, p: int)
    requires x <= y
    ensures ToFixed(x, p) <= ToFixed(y, p)
  {
    RoundToMonotone(x, y, Pow10(p));
  }

  lemma RoundToMonotone(x: real, y: real, P: real)
    requires x <= y && P > 0.0
    ensures RoundTo(x, P) <= RoundTo(y, P)
  {
    MulMonotone(x, y, P);
    RoundMonotone(x * P, y * P);
    DivMonotone(Round(x * P) as real, Round(y * P) as real, P);
  }

  lemma MulMonotone(a: real, b: real, k: real)
    requires a <= b && k > 0.0
    ensures a * k <= b * k
  {
  }

  /** calcCounter: the ticks divided by the counter constant (pulses per
      unit), unrounded. */
  function CalcCounter(s: Meter.S0, c: MeterConfig): (f: real)
    requires c.counterConstant > 0.0
    ensures f * c.counterConstant == s.tick as real
    ensures f >= 0.0
  {
    s.tick as real / c.counterConstant
  }

  /** The pulse data is stale once more time has passed since the last pulse
      than lay between the last two. */
  predicate IsStale(s: Meter.S0, now: int) {
    now - s.timeStamp > s.timeStamp - s.lastTimeStamp
  }

  /** calcGauge's effective interval: the time between the last two pulses,
      stretched to the time since the penultimate pulse once that is stale. */
  function Interval(s: Meter.S0, now: int): int {
    var dt := s.timeStamp - s.lastTimeStamp;
    if now - s.timeStamp > dt then now - s.lastTimeStamp else dt
  }

  /** The rate for an effective interval of `dt` nanoseconds:
      3600 / (seconds · counter constant) · scale factor. Times the interval
      in hours and the counter constant it is the scale factor. */
  function Rate(dt: int, c: MeterConfig): (f: real)
    requires dt != 0 && c.counterConstant != 0.0
    ensures f * ((dt as real / 1000000000.0) * c.counterConstant) / 3600.0 == c.scaleFactor
  {
    3600.0 / ((dt as real / 1000000000.0) * c.counterConstant) * c.scaleFactor
  }

  /** calcGauge with the clock reading `now`. An effective interval of zero
      or a counter constant of zero divides by zero, which yields no finite
      value (None); otherwise the gauge is the rate rounded to the configured
      precision. */
  function CalcGauge(s: Meter.S0, c: MeterConfig, now: int): (g: Option<real>)
    ensures g.None? <==> Interval(s, now) == 0 || c.counterConstant == 0.0
    ensures g.Some? ==> RoundedTo(g.value, Rate(Interval(s, now), c), Pow10(c.precision))
  {
    var dt := Interval(s, now);
    if dt == 0 || c.counterConstant == 0.0 then None else Some(ToFixed(Rate(dt, c), c.precision))
  }

  /** The interval is stretched exactly when the data is stale, and then to
      the time since the penultimate pulse. */
  lemma IntervalStretchedIffStale(s: Meter.S0, now: int)
    requires s.lastTimeStamp <= s.timeStamp
    ensures Interval(s, now) > s.timeStamp - s.lastTimeStamp <==> IsStale(s, now)
    ensures Interval(s, now) != s.timeStamp - s.lastTimeStamp <==> IsStale(s, now)
    ensures IsStale(s, now) ==> Interval(s, now) == now - s.lastTimeStamp
  {
  }

  /** With the pulses in order and the clock after the last one, the
      effective interval is at least the time between the last two pulses
      and at least the time since the last pulse. */
  lemma IntervalBounds(s: Meter.S0, now: int)
    requires s.lastTimeStamp <= s.timeStamp <= now
    ensures Interval(s, now) >= s.timeStamp - s.lastTimeStamp
    ensures Interval(s, now) >= now - s.timeStamp
  {
  }

  lemma DivDecreasing(k: real, a: real, b: real)
    requires k > 0.0 && 0.0 < a < b
    ensures k / b < k / a
  {
    assert k / b * b == k && k / a * a == k;
    assert k / a * b > k / a * a;
  }

  /** The longer the effective interval, the lower the rate. */
  lemma RateDecreasing(d1: int, d2: int, c: MeterConfig)
    requires 0 < d1 < d2 && c.counterConstant > 0.0 && c.scaleFactor > 0.0
    ensures Rate(d2, c) < Rate(d1, c)
  {
    var a := (d1 as real / 1000000000.0) * c.counterConstant;
    var b := (d2 as real / 1000000000.0) * c.counterConstant;
    assert 0.0 < d1 as real / 1000000000.0 < d2 as real / 1000000000.0;
    MulStrict(0.0, d1 as real / 1000000000.0, c.counterConstant);
    MulStrict(d1 as real / 1000000000.0, d2 as real / 1000000000.0, c.counterConstant);
    DivDecreasing(3600.0, a, b);
    MulStrict(3600.0 / b, 3600.0 / a, c.scaleFactor);
  }

  /** Staleness decay: once the data is stale and no pulse arrives, the
      unrounded rate strictly decreases as the clock advances, and the
      published gauge never increases. */
  lemma StaleGaugeDecays(s: Meter.S0, c: MeterConfig, now1: int, now2: int)
    requires s.lastTimeStamp <= s.timeStamp && IsStale(s, now1) && now1 < now2
    requires c.counterConstant > 0.0 && c.scaleFactor > 0.0
    ensures IsStale(s, now2)
    ensures Interval(s, now1) > 0 && Interval(s, now1) < Interval(s, now2)
    ensures Rate(Interval(s, now2), c) < Rate(Interval(s, now1), c)
    ensures CalcGauge(s, c, now2).Some? && CalcGauge(s, c, now1).Some?
    ensures CalcGauge(s, c, now2).value <= CalcGauge(s, c, now1).value
  {
    var d1, d2 := Interval(s, now1), Interval(s, now2);
    assert 0 < d1 < d2;
    RateDecreasing(d1, d2, c);
    ToFixedMonotone(Rate(d2, c), Rate(d1, c), c.precision);
  }

  /** A meter that has seen no pulse (both timestamps zero) has an effective
      interval equal to the clock, so from the zero time on it publishes a
      gauge only once the clock has moved past zero. */
  lemma ColdStartGauge(c: MeterConfig, now: int)
    requires c.counterConstant != 0.0
    ensures Interval(Meter.S0(0, 0, 0), now) == (if now > 0 then now else 0)
    ensures CalcGauge(Meter.S0(0, 0, 0), c, now).None? <==> now <= 0
  {
  }

  /** Counter constant 1000, scale factor 1, precision 2: a new meter ticks at
      t0 and at t0 + 3.6 s. At any time up to 3.6 s after the second tick
      the counter reads 0.002 and the gauge 1.00. */
  lemma ScenarioA(c: MeterConfig, t0: int, now: int)
    requires c.counterConstant == 1000.0 && c.scaleFactor == 1.0 && c.precision == 2
    requires t0 > 0 && t0 + 3600000000 <= now <= t0 + 2 * 3600000000
    ensures var s := Meter.Run(Meter.S0(0, 0, 0), [RpiPort.Event(t0, 0), RpiPort.Event(t0 + 3600000000, 0)]);
            && CalcCounter(s, c) == 0.002
            && CalcGauge(s, c, now) == Some(1.0)
  {
    var e := [RpiPort.Event(t0, 0), RpiPort.Event(t0 + 3600000000, 0)];
    var s1 := Meter.S0(1, t0, 0);
    assert Meter.Step(Meter.S0(0, 0, 0), e[0]) == s1;
    var s := Meter.S0(2, t0 + 3600000000, t0);
    assert Meter.Step(s1, e[1]) == s;
    assert Meter.Run(s, e[2..]) == s;
    assert Meter.Run(Meter.S0(0, 0, 0), e) == s;
    assert Interval(s, now) == 3600000000;
    assert Rate(3600000000, c) == 1.0;
    assert Pow10(2) == 100.0;
    assert Round(100.0) == 100;
  }

  /** One record of the measurement file. */
  datatype SavedRecord = SavedRecord(ticks: uint64, counter: real, timeStamp: int)

  type SaveMeters = map<string, SavedRecord>

  /** What was found at the data file's path: nothing, something that could
      not be written, read or decoded, or the decoded records. */
  datatype DataFile = Missing | Failed(reason: string) | Stored(records: SaveMeters)

  /** The pulse data and the configurations of the registered meters. */
  ghost function States(meters: map<string, Meter.Meter>): map<string, Meter.S0>
    reads meters.Values
  {
    map name | name in meters :: meters[name].s0
  }

  ghost function Configs(meters: map<string, Meter.Meter>): map<string, MeterConfig>
    reads meters.Values
  {
    map name | name in meters :: meters[name].config
  }

  /** Every registered name has a meter object of its own. */
  predicate Distinct(meters: map<string, Meter.Meter>) {
    forall a, b :: a in meters && b in meters && a != b ==> meters[a] != meters[b]
  }

  predicate CountsDefined(configs: map<string, MeterConfig>) {
    forall name :: name in configs ==> configs[name].counterConstant > 0.0
  }

  /** The record saving a meter writes. */
  function Record(s: Meter.S0, c: MeterConfig): SavedRecord
    requires c.counterConstant > 0.0
  {
    SavedRecord(s.tick, CalcCounter(s, c), s.timeStamp)
  }

  /** saveMeasurements' map: one record per registered meter. */
  function Snapshot(states: map<string, Meter.S0>, configs: map<string, MeterConfig>): (r: SaveMeters)
    requires states.Keys == configs.Keys && CountsDefined(configs)
  {
    map name | name in states :: Record(states[name], configs[name])
  }

  /** The records written when no data file exists. */
  function ZeroRecords(names: set<string>): (r: SaveMeters) {
    map name | name in names :: SavedRecord(0, 0.0, 0)
  }

  /** loadMeasurements' merge: every registered meter that has a record
      takes its ticks and timestamp from it. */
  function Restore(states: map<string, Meter.S0>, records: SaveMeters): (r: map<string, Meter.S0>) {
    map name | name in states ::
      if name in records then states[name].(tick := records[name].ticks, timeStamp := records[name].timeStamp)
      else states[name]
  }

  /** Saving writes exactly the registered names, each with the meter's
      ticks, its counter reading and the time of its last pulse. */
  lemma SnapshotRecords(states: map<string, Meter.S0>, configs: map<string, MeterConfig>, name: string)
    requires states.Keys == configs.Keys && CountsDefined(configs)
    ensures Snapshot(states, configs).Keys == states.Keys
    ensures name in states ==>
      var rec := Snapshot(states, configs)[name];
      && rec.ticks == states[name].tick
      && rec.counter * configs[name].counterConstant == states[name].tick as real
      && rec.timeStamp == states[name].timeStamp
  {
  }

  /** Restoring keeps the registered names; a meter with a record takes its
      ticks and timestamp, one without stays as it was, and the
      penultimate-pulse time never changes. */
  lemma RestoreEffect(states: map<string, Meter.S0>, records: SaveMeters, name: string)
    ensures Restore(states, records).Keys == states.Keys
    ensures name in states && name in records ==>
      && Restore(states, records)[name].tick == records[name].ticks
      && Restore(states, records)[name].timeStamp == records[name].timeStamp
    ensures name in states && name !in records ==> Restore(states, records)[name] == states[name]
    ensures name in states ==> Restore(states, records)[name].lastTimeStamp == states[name].lastTimeStamp
  {
  }

  /** Records for names that are not registered meters are ignored. */
  lemma {:induction false} RestoreIgnoresUnknown(states: map<string, Meter.S0>, records: SaveMeters)
    ensures Restore(states, records) == Restore(states, map name | name in records && name in states :: records[name])
  {
    var known := map name | name in records && name in states :: records[name];
    var r1, r2 := Restore(states, records), Restore(states, known);
    assert r1.Keys == r2.Keys;
    forall name | name in r1
      ensures r1[name] == r2[name]
    {
      assert name in records <==> name in known;
    }
  }

  /** Round trip: loading what saving wrote gives every meter back its ticks
      and timestamp, so the pulse data is unchanged. */
  lemma {:induction false} SaveLoadRoundTrip(states: map<string, Meter.S0>, configs: map<string, MeterConfig>)
    requires states.Keys == configs.Keys && CountsDefined(configs)
    ensures Restore(states, Snapshot(states, configs)) == states
  {
    var r := Restore(states, Snapshot(states, configs));
    assert r.Keys == states.Keys;
    forall name | name in states
      ensures r[name] == states[name]
    {
      assert name in Snapshot(states, configs);
    }
  }

  /** A missing data file resets every registered meter's ticks and
      timestamp to zero. */
  lemma {:induction false} MissingFileResets(states: map<string, Meter.S0>)
    ensures Restore(states, ZeroRecords(states.Keys)) == map name | name in states :: states[name].(tick := 0, timeStamp := 0)
  {
    var r := Restore(states, ZeroRecords(states.Keys));
    var z := map name | name in states :: states[name].(tick := 0, timeStamp := 0);
    assert r.Keys == z.Keys;
    forall name | name in states
      ensures r[name] == z[name]
    {
      assert name in ZeroRecords(states.Keys);
    }
  }

  /** Loading the same records twice is loading them once. */
  lemma {:induction false} RestoreIdempotent(states: map<string, Meter.S0>, records: SaveMeters)
    ensures Restore(Restore(states, records), records) == Restore(states, records)
  {
    var r1 := Restore(states, records);
    var r2 := Restore(r1, records);
    assert r2.Keys == r1.Keys;
    forall name | name in r1
      ensures r2[name] == r1[name]
    {
    }
  }

  /** saveMeasurements without the YAML encoding and the file write. */
  method SaveMeasurements(meters: map<string, Meter.Meter>) returns (s: SaveMeters)
    requires CountsDefined(Configs(meters))
    ensures s == Snapshot(States(meters), Configs(meters))
  {
    forall name | name in meters
      ensures meters[name].config.counterConstant > 0.0
    {
      assert Configs(meters)[name] == meters[name].config;
    }
    s := map[];
    var names := meters.Keys;
    while names != {}
      invariant names <= meters.Keys
      invariant s.Keys == meters.Keys - names
      invariant forall name :: name in s ==>
        s[name] == Record(meters[name].s0, meters[name].config)
      decreases names
    {
      var name :| name in names;
      var m := meters[name];
      s := s[name := SavedRecord(m.s0.tick, CalcCounter(m.s0, m.config), m.s0.timeStamp)];
      names := names - {name};
    }
  }

  /** loadMeasurements without the YAML encoding and the file access. A
      failure leaves every meter as it was; a missing file is first
      created with zero records for every registered meter, which are then
      what is loaded. Only the pulse data of registered meters changes. */
  method LoadMeasurements(meters: map<string, Meter.Meter>, file: DataFile)
    returns (err: Option<string>, created: Option<SaveMeters>)
    requires Distinct(meters)
    modifies meters.Values
    ensures file.Failed? ==> err == Some(file.reason) && created == None
    ensures file.Failed? ==> forall name :: name in meters ==> unchanged(meters[name])
    ensures file.Missing? ==> err == None && created == Some(ZeroRecords(meters.Keys))
    ensures file.Stored? ==> err == None && created == None
    ensures !file.Failed? ==>
      var records := if file.Missing? then ZeroRecords(meters.Keys) else file.records;
      States(meters) == Restore(old(States(meters)), records)
    ensures forall name :: name in meters ==>
      meters[name].config == old(meters[name].config) && meters[name].lineHandler == old(meters[name].lineHandler)
  {
    created := None;
    var records: SaveMeters;
    match file {
      case Failed(reason) =>
        return Some(reason), None;
      case Missing =>
        records := ZeroRecords(meters.Keys);
        created := Some(records);
      case Stored(rs) =>
        records := rs;
    }
    var names := records.Keys;
    while names != {}
      invariant names <= records.Keys
      invariant forall name :: name in meters ==>
        meters[name].s0 == (if name in records && name !in names
                            then old(meters[name].s0).(tick := records[name].ticks, timeStamp := records[name].timeStamp)
                            else old(meters[name].s0))
      invariant forall name :: name in meters ==>
        meters[name].config == old(meters[name].config) && meters[name].lineHandler == old(meters[name].lineHandler)
      decreases names
    {
      var name :| name in names;
      if name in meters {
        var m := meters[name];
        m.s0 := m.s0.(timeStamp := records[name].timeStamp, tick := records[name].ticks);
      }
      names := names - {name};
    }
    err := None;
  }
}
