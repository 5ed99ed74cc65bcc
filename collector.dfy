/** The metric mapper: the gauge table of the collector and how a decoded
    report updates it. */
module Collector {
  import opened Payload
  import opened Tables

  /** A gauge series key with one combination of label values. */
  type GaugeKey = (string, seq<string>)

  /** Label names of the per-type gauges. */
  const InstanceLabels: seq<string> := ["tasmota_instance", "sensor_name"]

  /** Label names of the shared particulate-matter gauge. */
  const PMLabels: seq<string> := ["tasmota_instance", "sensor_name", "resolution"]

  /** The shared particulate-matter series key. */
  const PMSeries: string := "pm"

  /** The per-type gauges the setup loop has registered after the first `j` types. */
  function TypeGauges(j: nat): map<string, seq<string>>
    requires j <= |SensorTypes|
  {
    if j == 0 then map[]
    else
      var t := SensorTypes[j - 1];
      if !IsPMFamily(t) then TypeGauges(j - 1)[TypeName(t) := InstanceLabels] else TypeGauges(j - 1)
  }

  /** The gauge table the collector registers: one gauge per type outside the
      PM family, labelled by instance and sensor name, and the shared "pm" gauge
      with the extra resolution label. */
  function RegisteredGauges(): (g: map<string, seq<string>>)
    ensures g.Keys == {"Temperature", "Pressure", "Humidity", "Illuminance", PMSeries}
    ensures forall s :: s in g ==> g[s] == if s == PMSeries then PMLabels else InstanceLabels
  {
    TypeGaugesTable();
    TypeGauges(|SensorTypes|)[PMSeries := PMLabels]
  }

  /** The setup loop skips exactly the two PM-family types. */
  lemma TypeGaugesTable()
    ensures TypeGauges(|SensorTypes|) == map[
      "Temperature" := InstanceLabels, "Pressure" := InstanceLabels,
      "Humidity" := InstanceLabels, "Illuminance" := InstanceLabels]
  {
    PMFamilyMembers(Temperature);
    PMFamilyMembers(Pressure);
    PMFamilyMembers(Humidity);
    PMFamilyMembers(PM10);
    PMFamilyMembers(PM2);
    PMFamilyMembers(Illuminance);
    assert TypeGauges(3) == map["Temperature" := InstanceLabels, "Pressure" := InstanceLabels, "Humidity" := InstanceLabels];
    assert TypeGauges(5) == TypeGauges(3);
  }

  /** A key that names a registered series and has one value per label name. */
  predicate Registered(k: GaugeKey)
  {
    k.0 in RegisteredGauges() && |k.1| == |RegisteredGauges()[k.0]|
  }

  /** The gauge series and label values a reading of `device` is written to. */
  function Route(device: string, r: Reading): (k: GaugeKey)
    ensures (r.kind == PM10 || r.kind == PM2) ==> k == (PMSeries, [device, r.sensorName, TypeName(r.kind)])
    ensures !(r.kind == PM10 || r.kind == PM2) ==> k == (TypeName(r.kind), [device, r.sensorName])
  {
    PMFamilyMembers(r.kind);
    if !IsPMFamily(r.kind) then (TypeName(r.kind), [device, r.sensorName])
    else (PMSeries, [device, r.sensorName, TypeName(r.kind)])
  }

  /** Every reading is written to a registered series, with one label value per
      label name of that series. */
  lemma RouteRegistered(device: string, r: Reading)
    ensures Registered(Route(device, r))
  {
  }

  /** Every stored value belongs to a registered series and has as many label
      values as that series has label names. */
  ghost predicate WellFormed(values: map<GaugeKey, real>)
  {
    forall k :: k in values ==> Registered(k)
  }

  /** The gauge values after writing the readings `rs` of `device` in order. */
  function Apply(values: map<GaugeKey, real>, device: string, rs: seq<Reading>): map<GaugeKey, real>
  {
    if rs == [] then values
    else
      var last := rs[|rs| - 1];
      Apply(values, device, rs[..|rs| - 1])[Route(device, last) := last.value]
  }

  /** The value of the last reading in `rs` that is written to `k`, if any. */
  function LastWrite(device: string, rs: seq<Reading>, k: GaugeKey): Option<real>
  {
    if rs == [] then None
    else if Route(device, rs[|rs| - 1]) == k then Some(rs[|rs| - 1].value)
    else LastWrite(device, rs[..|rs| - 1], k)
  }

  /** The write targets of `rs`, one per reading, in order. */
  function Routes(device: string, rs: seq<Reading>): (ks: seq<GaugeKey>)
    ensures |ks| == |rs|
    ensures forall i :: 0 <= i < |rs| ==> ks[i] == Route(device, rs[i])
  {
    seq(|rs|, i requires 0 <= i < |rs| => Route(device, rs[i]))
  }

  /** Last write wins: after applying `rs`, a key holds the value of the last
      reading written to it, and a key no reading is written to keeps its old
      value (or stays absent). */
  lemma {:induction false} ApplyLookup(values: map<GaugeKey, real>, device: string, rs: seq<Reading>, k: GaugeKey)
    ensures k in Apply(values, device, rs) <==> k in values || LastWrite(device, rs, k).Some?
    ensures LastWrite(device, rs, k).Some? ==> Apply(values, device, rs)[k] == LastWrite(device, rs, k).value
    ensures LastWrite(device, rs, k).None? && k in values ==> Apply(values, device, rs)[k] == values[k]
  {
    if rs != [] {
      ApplyLookup(values, device, rs[..|rs| - 1], k);
    }
  }

  /** `LastWrite` finds nothing exactly when no reading is routed to `k`. */
  lemma {:induction false} LastWriteNone(device: string, rs: seq<Reading>, k: GaugeKey)
    ensures LastWrite(device, rs, k).None? <==> forall i :: 0 <= i < |rs| ==> Route(device, rs[i]) != k
  {
    if rs != [] {
      var prefix := rs[..|rs| - 1];
      LastWriteNone(device, prefix, k);
      assert forall i :: 0 <= i < |prefix| ==> prefix[i] == rs[i];
    }
  }

  /** The reading at `i` is the last one in `rs` routed to `k`. */
  predicate IsLastWriteAt(device: string, rs: seq<Reading>, k: GaugeKey, i: int)
  {
    0 <= i < |rs| && Route(device, rs[i]) == k && forall j :: i < j < |rs| ==> Route(device, rs[j]) != k
  }

  /** What `LastWrite` finds is the value of the last reading routed to `k`. */
  lemma {:induction false} LastWriteIsLast(device: string, rs: seq<Reading>, k: GaugeKey)
    requires LastWrite(device, rs, k).Some?
    ensures exists i :: IsLastWriteAt(device, rs, k, i) && rs[i].value == LastWrite(device, rs, k).value
  {
    var n := |rs| - 1;
    if Route(device, rs[n]) == k {
      assert IsLastWriteAt(device, rs, k, n);
    } else {
      var prefix := rs[..n];
      LastWriteIsLast(device, prefix, k);
      var i :| IsLastWriteAt(device, prefix, k, i) && prefix[i].value == LastWrite(device, prefix, k).value;
      assert rs[i] == prefix[i];
      forall j | i < j < |rs| ensures Route(device, rs[j]) != k {
        if j < n {
          assert rs[j] == prefix[j];
        }
      }
      assert IsLastWriteAt(device, rs, k, i);
    }
  }

  /** Applying the same report twice leaves the table as applying it once. */
  lemma ApplyIdempotent(values: map<GaugeKey, real>, device: string, rs: seq<Reading>)
    ensures Apply(Apply(values, device, rs), device, rs) == Apply(values, device, rs)
  {
    var once := Apply(values, device, rs);
    var twice := Apply(once, device, rs);
    forall k ensures (k in twice <==> k in once) && (k in once ==> twice[k] == once[k]) {
      ApplyLookup(values, device, rs, k);
      ApplyLookup(once, device, rs, k);
    }
    assert twice.Keys == once.Keys;
  }

  /** Applying readings keeps every stored key registered and of the right arity. */
  lemma {:induction false} ApplyWellFormed(values: map<GaugeKey, real>, device: string, rs: seq<Reading>)
    requires WellFormed(values)
    ensures WellFormed(Apply(values, device, rs))
  {
    if rs != [] {
      ApplyWellFormed(values, device, rs[..|rs| - 1]);
      RouteRegistered(device, rs[|rs| - 1]);
    }
  }

  /** Applying one more reading of a prefix of `rs` is one more write. */
  lemma ApplyStep(values: map<GaugeKey, real>, device: string, rs: seq<Reading>, i: nat)
    requires i < |rs|
    ensures Apply(values, device, rs[..i + 1]) == Apply(values, device, rs[..i])[Route(device, rs[i]) := rs[i].value]
  {
    var p := rs[..i + 1];
    assert p[..|p| - 1] == rs[..i] && p[|p| - 1] == rs[i];
  }

  lemma RoutesStep(device: string, rs: seq<Reading>, i: nat)
    requires i < |rs|
    ensures Routes(device, rs[..i + 1]) == Routes(device, rs[..i]) + [Route(device, rs[i])]
  {
  }

  lemma WellFormedWrite(values: map<GaugeKey, real>, k: GaugeKey, v: real)
    requires WellFormed(values) && Registered(k)
    ensures WellFormed(values[k := v])
  {
  }

  /** Two readings of one device share a gauge key only when they share hardware
      and type, so the readings of one decoded report never overwrite each other. */
  lemma RouteInjective(device: string, r1: Reading, r2: Reading)
    ensures Route(device, r1) == Route(device, r2) <==> r1.sensorName == r2.sensorName && r1.kind == r2.kind
  {
  }

  /** A climate report of one device fills the temperature and humidity gauges. */
  lemma ClimateReportGauges()
    ensures Apply(map[], "dev1", [Reading(Temperature, "SI7021", 21.5), Reading(Humidity, "SI7021", 55.0)])
      == map[("Temperature", ["dev1", "SI7021"]) := 21.5, ("Humidity", ["dev1", "SI7021"]) := 55.0]
  {
  }

  /** Both particulate-matter readings land in the shared "pm" gauge, told apart
      by their resolution label. */
  lemma ParticulateReportGauges()
    ensures Apply(map[], "dev1", [Reading(PM10, "SDS0X1", 3.0), Reading(PM2, "SDS0X1", 5.0)])
      == map[(PMSeries, ["dev1", "SDS0X1", "PM10"]) := 3.0, (PMSeries, ["dev1", "SDS0X1", "PM2.5"]) := 5.0]
  {
  }

  /** The collector (`prometheusTasmotaSensorCollector`): its registered gauges
      and the values they currently hold. */
  class SensorCollector {
    /** Series key -> label names of the registered gauge vector. */
    var sensors: map<string, seq<string>>
    /** (series key, label values) -> current gauge value. */
    var values: map<GaugeKey, real>
    /** Every gauge write performed so far, in order. */
    ghost var writes: seq<GaugeKey>

    ghost predicate Valid()
      reads this
    {
      sensors == RegisteredGauges() && WellFormed(values)
    }

    /** `newPrometheusTasmotaSensorCollector`: registers one gauge per type
        outside the PM family, then the shared "pm" gauge. */
    constructor ()
      ensures Valid()
      ensures values == map[] && writes == []
    {
      var gauges: map<string, seq<string>> := map[];
      for t := 0 to |SensorTypes|
        invariant gauges == TypeGauges(t)
      {
        if !IsPMFamily(SensorTypes[t]) {
          gauges := gauges[TypeName(SensorTypes[t]) := InstanceLabels];
        }
      }
      gauges := gauges[PMSeries := PMLabels];
      sensors := gauges;
      values := map[];
      writes := [];
    }

    /** `updateState`: one gauge write per reading, in order; PM-family readings
        go to the shared "pm" gauge with the type as resolution label, every other
        reading to the gauge of its type. */
    method UpdateState(report: Report)
      requires Valid()
      modifies this
      ensures Valid()
      ensures sensors == old(sensors)
      ensures values == Apply(old(values), report.deviceName, report.readings)
      ensures writes == old(writes) + Routes(report.deviceName, report.readings)
    {
      var rs := report.readings;
      for i := 0 to |rs|
        invariant sensors == old(sensors)
        invariant values == Apply(old(values), report.deviceName, rs[..i])
        invariant WellFormed(values)
        invariant writes == old(writes) + Routes(report.deviceName, rs[..i])
      {
        var data := rs[i];
        var key: GaugeKey;
        if !IsPMFamily(data.kind) {
          key := (TypeName(data.kind), [report.deviceName, data.sensorName]);
        } else {
          key := (PMSeries, [report.deviceName, data.sensorName, TypeName(data.kind)]);
        }
        assert key == Route(report.deviceName, data);
        ApplyStep(old(values), report.deviceName, rs, i);
        RoutesStep(report.deviceName, rs, i);
        RouteRegistered(report.deviceName, data);
        WellFormedWrite(values, key, data.value);
        values := values[key := data.value];
        writes := writes + [key];
      }
      assert rs[..|rs|] == rs;
    }
  }
}
