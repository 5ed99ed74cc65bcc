/** The payload decoder: projection of a parsed payload through the hardware
    whitelist and the sensor-type table into an ordered list of readings. */
module Decoder {
  import opened Payload
  import opened Tables

  /** `getSingleReadout`: the reading of type `t` in the hardware entry `input`.
      The entry must be map-shaped and hold a field named exactly after the type;
      a present field that is neither a float nor an int still gives a reading,
      with value 0, because the type switch has no default branch. */
  function SingleReadout(sensorName: string, t: SensorType, input: Value): (r: Option<Reading>)
    ensures r.Some? <==> input.Map? && TypeName(t) in input.fields
    ensures r.Some? ==> r.value.kind == t && r.value.sensorName == sensorName
    ensures r.Some? && input.fields[TypeName(t)].Float? ==> r.value.value == input.fields[TypeName(t)].x
    ensures r.Some? && input.fields[TypeName(t)].Int? ==> r.value.value == input.fields[TypeName(t)].n as real
    ensures r.Some? && !input.fields[TypeName(t)].Float? && !input.fields[TypeName(t)].Int? ==> r.value.value == 0.0
  {
    if !input.Map? then None
    else if TypeName(t) !in input.fields then None
    else
      var value := match input.fields[TypeName(t)]
        case Float(x) => x
        case Int(n) => n as real
        case _ => 0.0;
      Some(Reading(t, sensorName, value))
  }

  function Emitted(o: Option<Reading>): seq<Reading>
  {
    if o.Some? then [o.value] else []
  }

  /** The readings of hardware `name` for the first `j` sensor types. */
  function TypeReadings(name: string, input: Value, j: nat): seq<Reading>
    requires j <= |SensorTypes|
  {
    if j == 0 then []
    else TypeReadings(name, input, j - 1) + Emitted(SingleReadout(name, SensorTypes[j - 1], input))
  }

  /** The readings a whitelisted hardware name contributes: none when absent. */
  function EntryReadings(data: map<string, Value>, name: string): seq<Reading>
  {
    if name in data then TypeReadings(name, data[name], |SensorTypes|) else []
  }

  /** The readings of the first `i` whitelisted hardware names. */
  function ReadingsUpTo(data: map<string, Value>, i: nat): seq<Reading>
    requires i <= |SensorNames|
  {
    if i == 0 then []
    else ReadingsUpTo(data, i - 1) + EntryReadings(data, SensorNames[i - 1])
  }

  /** What `getSensorData` returns for a parsed payload. */
  function SensorData(data: map<string, Value>): seq<Reading>
  {
    ReadingsUpTo(data, |SensorNames|)
  }

  /** `getSensorData`: the nested loops over the two tables, appending each
      reading that `getSingleReadout` yields. */
  method GetSensorData(data: map<string, Value>) returns (sensors: seq<Reading>)
    ensures sensors == SensorData(data)
  {
    sensors := [];
    for i := 0 to |SensorNames|
      invariant sensors == ReadingsUpTo(data, i)
    {
      var name := SensorNames[i];
      if name in data {
        var tmp := data[name];
        for t := 0 to |SensorTypes|
          invariant sensors == ReadingsUpTo(data, i) + TypeReadings(name, tmp, t)
        {
          var value := SingleReadout(name, SensorTypes[t], tmp);
          if value.None? {
            continue;
          }
          sensors := sensors + [value.value];
        }
      }
    }
  }

  /** `UnmarshalYAML`: a payload that does not parse as a top-level mapping is
      an error; otherwise the readings of the parsed mapping. */
  method Unmarshal(doc: Document) returns (r: Result<seq<Reading>>)
    ensures doc.Unparsable? <==> r.Err?
    ensures doc.Parsed? ==> r == Ok(SensorData(doc.entries))
  {
    if doc.Unparsable? {
      return Err(Malformed);
    }
    var sensors := GetSensorData(doc.entries);
    return Ok(sensors);
  }

  // ----- membership -----

  lemma {:induction false} TypeReadingsMembership(name: string, input: Value, j: nat, r: Reading)
    requires j <= |SensorTypes|
    ensures r in TypeReadings(name, input, j) <==>
      TypeIndex(r.kind) < j && SingleReadout(name, r.kind, input) == Some(r)
  {
    if j > 0 {
      TypeReadingsMembership(name, input, j - 1, r);
    }
  }

  lemma {:induction false} ReadingsUpToMembership(data: map<string, Value>, i: nat, r: Reading)
    requires i <= |SensorNames|
    ensures r in ReadingsUpTo(data, i) <==>
      NameIndex(r.sensorName) < i && r.sensorName in data
      && SingleReadout(r.sensorName, r.kind, data[r.sensorName]) == Some(r)
  {
    if i > 0 {
      ReadingsUpToMembership(data, i - 1, r);
      var name := SensorNames[i - 1];
      NameIndexOfPosition(i - 1);
      if name in data {
        TypeReadingsMembership(name, data[name], |SensorTypes|, r);
      }
    }
  }

  /** A reading is decoded exactly when its hardware name is whitelisted and
      present, and `getSingleReadout` yields that very reading for its type. */
  lemma ReadingMembership(data: map<string, Value>, r: Reading)
    ensures r in SensorData(data) <==>
      r.sensorName in SensorNames && r.sensorName in data
      && SingleReadout(r.sensorName, r.kind, data[r.sensorName]) == Some(r)
  {
    ReadingsUpToMembership(data, |SensorNames|, r);
  }

  /** A reading for `(name, t)` exists exactly when the entry of a whitelisted
      `name` is map-shaped and has a field named exactly `TypeName(t)`; it then
      carries the field's value. */
  lemma ReadingExists(data: map<string, Value>, name: string, t: SensorType)
    requires name in SensorNames
    ensures (exists v :: Reading(t, name, v) in SensorData(data)) <==>
      name in data && data[name].Map? && TypeName(t) in data[name].fields
  {
    if name in data && data[name].Map? && TypeName(t) in data[name].fields {
      var r := SingleReadout(name, t, data[name]).value;
      ReadingMembership(data, r);
      assert Reading(t, name, r.value) in SensorData(data);
    }
    if exists v :: Reading(t, name, v) in SensorData(data) {
      var v :| Reading(t, name, v) in SensorData(data);
      ReadingMembership(data, Reading(t, name, v));
    }
  }

  // ----- order, uniqueness and count -----

  /** `r1` comes before `r2` in whitelist order, then in type order. */
  predicate Before(r1: Reading, r2: Reading)
  {
    || NameIndex(r1.sensorName) < NameIndex(r2.sensorName)
    || (NameIndex(r1.sensorName) == NameIndex(r2.sensorName) && TypeIndex(r1.kind) < TypeIndex(r2.kind))
  }

  predicate Ordered(s: seq<Reading>)
  {
    forall a, b :: 0 <= a < b < |s| ==> Before(s[a], s[b])
  }

  lemma {:induction false} TypeReadingsOrdered(name: string, input: Value, j: nat)
    requires j <= |SensorTypes|
    ensures Ordered(TypeReadings(name, input, j))
    ensures forall r :: r in TypeReadings(name, input, j) ==> r.sensorName == name && TypeIndex(r.kind) < j
  {
    if j > 0 {
      TypeReadingsOrdered(name, input, j - 1);
      var s := TypeReadings(name, input, j);
      var prefix := TypeReadings(name, input, j - 1);
      var o := SingleReadout(name, SensorTypes[j - 1], input);
      assert s == prefix + Emitted(o);
      if o.Some? {
        assert TypeIndex(o.value.kind) == j - 1;
        forall a, b | 0 <= a < b < |s| ensures Before(s[a], s[b]) {
          if b < |prefix| {
            assert Before(prefix[a], prefix[b]);
          } else {
            assert s[a] in prefix;
          }
        }
      }
    }
  }

  lemma {:induction false} ReadingsUpToOrdered(data: map<string, Value>, i: nat)
    requires i <= |SensorNames|
    ensures Ordered(ReadingsUpTo(data, i))
    ensures forall r :: r in ReadingsUpTo(data, i) ==> NameIndex(r.sensorName) < i
  {
    if i > 0 {
      ReadingsUpToOrdered(data, i - 1);
      var name := SensorNames[i - 1];
      NameIndexOfPosition(i - 1);
      var prefix := ReadingsUpTo(data, i - 1);
      var entry := EntryReadings(data, name);
      var s := ReadingsUpTo(data, i);
      assert s == prefix + entry;
      if name in data {
        TypeReadingsOrdered(name, data[name], |SensorTypes|);
      }
      assert forall r :: r in entry ==> NameIndex(r.sensorName) == i - 1;
      forall a, b | 0 <= a < b < |s| ensures Before(s[a], s[b]) {
        if b < |prefix| {
          assert Before(prefix[a], prefix[b]);
        } else if a >= |prefix| {
          assert Before(entry[a - |prefix|], entry[b - |prefix|]);
        } else {
          assert s[a] in prefix && s[b] in entry;
        }
      }
    }
  }

  /** The position of a reading in the 4 x 6 grid of (hardware, type) pairs. */
  function Rank(r: Reading): nat
  {
    NameIndex(r.sensorName) * |SensorTypes| + TypeIndex(r.kind)
  }

  lemma BeforeRank(r1: Reading, r2: Reading)
    requires Before(r1, r2)
    ensures Rank(r1) < Rank(r2)
  {
  }

  lemma {:induction false} RankGrowth(s: seq<Reading>, k: nat)
    requires Ordered(s) && k < |s|
    ensures Rank(s[k]) >= k
  {
    if k > 0 {
      RankGrowth(s, k - 1);
      BeforeRank(s[k - 1], s[k]);
    }
  }

  /** Every decoded reading names whitelisted hardware and a listed type; the
      readings come in whitelist order, then type order; no (hardware, type)
      pair repeats; hence there are at most 4 x 6 readings. */
  lemma SensorDataShape(data: map<string, Value>)
    ensures forall r :: r in SensorData(data) ==> r.sensorName in SensorNames && r.kind in SensorTypes
    ensures Ordered(SensorData(data))
    ensures forall a, b :: 0 <= a < b < |SensorData(data)| ==>
      (SensorData(data)[a].sensorName, SensorData(data)[a].kind) != (SensorData(data)[b].sensorName, SensorData(data)[b].kind)
    ensures |SensorData(data)| <= |SensorNames| * |SensorTypes|
  {
    var s := SensorData(data);
    ReadingsUpToOrdered(data, |SensorNames|);
    forall r | r in s ensures r.sensorName in SensorNames && r.kind in SensorTypes {
      AllTypesListed(r.kind);
    }
    if |s| > 0 {
      RankGrowth(s, |s| - 1);
      assert NameIndex(s[|s| - 1].sensorName) < |SensorNames|;
    }
  }

  // ----- what the result depends on -----

  /** The result depends only on what each whitelisted name contributes. */
  lemma {:induction false} ReadingsUpToByEntries(d1: map<string, Value>, d2: map<string, Value>, i: nat)
    requires i <= |SensorNames|
    requires forall k :: 0 <= k < i ==> EntryReadings(d1, SensorNames[k]) == EntryReadings(d2, SensorNames[k])
    ensures ReadingsUpTo(d1, i) == ReadingsUpTo(d2, i)
  {
    if i > 0 {
      ReadingsUpToByEntries(d1, d2, i - 1);
    }
  }

  /** Two payloads that agree on the whitelisted top-level keys (presence and
      value) decode alike, whatever else they hold. Since the top level is a
      mapping, its key order plays no part either. */
  lemma SensorDataLocal(d1: map<string, Value>, d2: map<string, Value>)
    requires forall n :: n in SensorNames ==> (n in d1 <==> n in d2) && (n in d1 ==> d1[n] == d2[n])
    ensures SensorData(d1) == SensorData(d2)
  {
    forall k | 0 <= k < |SensorNames|
      ensures EntryReadings(d1, SensorNames[k]) == EntryReadings(d2, SensorNames[k])
    {
      assert SensorNames[k] in SensorNames;
    }
    ReadingsUpToByEntries(d1, d2, |SensorNames|);
  }

  lemma {:induction false} TypeReadingsCongruent(name: string, in1: Value, in2: Value, j: nat)
    requires j <= |SensorTypes|
    requires forall t :: SingleReadout(name, t, in1) == SingleReadout(name, t, in2)
    ensures TypeReadings(name, in1, j) == TypeReadings(name, in2, j)
  {
    if j > 0 {
      TypeReadingsCongruent(name, in1, in2, j - 1);
    }
  }

  lemma {:induction false} TypeReadingsOfNonMap(name: string, input: Value, j: nat)
    requires !input.Map? && j <= |SensorTypes|
    ensures TypeReadings(name, input, j) == []
  {
    if j > 0 {
      TypeReadingsOfNonMap(name, input, j - 1);
    }
  }

  /** A whitelisted entry that is not map-shaped contributes nothing, and the
      other entries decode as if it were absent. */
  lemma WrongShapedSkipped(data: map<string, Value>, name: string)
    requires name in data && !data[name].Map?
    ensures SensorData(data) == SensorData(data - {name})
    ensures forall r :: r in SensorData(data) ==> r.sensorName != name
  {
    TypeReadingsOfNonMap(name, data[name], |SensorTypes|);
    forall k | 0 <= k < |SensorNames|
      ensures EntryReadings(data, SensorNames[k]) == EntryReadings(data - {name}, SensorNames[k])
    {
    }
    ReadingsUpToByEntries(data, data - {name}, |SensorNames|);
    forall r | r in SensorData(data) ensures r.sensorName != name {
      ReadingMembership(data, r);
    }
  }

  /** A field whose name is no sensor type's name, with any value, changes
      nothing in the decoded readings. */
  lemma NonTypeFieldIgnored(data: map<string, Value>, name: string, k: string, v: Value)
    requires name in data && data[name].Map?
    requires forall t :: TypeName(t) != k
    ensures SensorData(data[name := Map(data[name].fields[k := v])]) == SensorData(data)
  {
    var data' := data[name := Map(data[name].fields[k := v])];
    forall t ensures SingleReadout(name, t, data'[name]) == SingleReadout(name, t, data[name]) {
      assert TypeName(t) != k;
    }
    TypeReadingsCongruent(name, data'[name], data[name], |SensorTypes|);
    forall i | 0 <= i < |SensorNames|
      ensures EntryReadings(data', SensorNames[i]) == EntryReadings(data, SensorNames[i])
    {
    }
    ReadingsUpToByEntries(data', data, |SensorNames|);
  }

  /** No sensor type's name ends in "Unit" or is "Time". */
  lemma NoTypeNameIsAuxiliary(t: SensorType)
    ensures !IsUnitField(TypeName(t))
    ensures TypeName(t) != "Time"
  {
  }

  /** A unit field (`PM10Unit`, `TempUnit`, ...) never yields or alters a reading. */
  lemma UnitFieldIgnored(data: map<string, Value>, name: string, k: string, v: Value)
    requires name in data && data[name].Map?
    requires IsUnitField(k)
    ensures SensorData(data[name := Map(data[name].fields[k := v])]) == SensorData(data)
  {
    forall t ensures TypeName(t) != k {
      NoTypeNameIsAuxiliary(t);
    }
    NonTypeFieldIgnored(data, name, k, v);
  }

  // ----- two reports as the firmware sends them -----

  /** A temperature/humidity module: one float and one int field. */
  lemma DecodeClimateReport()
    ensures SensorData(map["SI7021" := Map(map["Temperature" := Float(21.5), "Humidity" := Int(55)])])
      == [Reading(Temperature, "SI7021", 21.5), Reading(Humidity, "SI7021", 55.0)]
  {
    var data := map["SI7021" := Map(map["Temperature" := Float(21.5), "Humidity" := Int(55)])];
    var entry := data["SI7021"];
    assert TypeReadings("SI7021", entry, 3) == [Reading(Temperature, "SI7021", 21.5), Reading(Humidity, "SI7021", 55.0)];
    assert ReadingsUpTo(data, 1) == TypeReadings("SI7021", entry, 6);
  }

  /** A particulate-matter module with a unit field beside its readings. */
  lemma DecodeParticulateReport()
    ensures SensorData(map["SDS0X1" := Map(map["PM10" := Int(3), "PM10Unit" := Other, "PM2.5" := Int(5)])])
      == [Reading(PM10, "SDS0X1", 3.0), Reading(PM2, "SDS0X1", 5.0)]
  {
    var data := map["SDS0X1" := Map(map["PM10" := Int(3), "PM10Unit" := Other, "PM2.5" := Int(5)])];
    var entry := data["SDS0X1"];
    assert TypeReadings("SDS0X1", entry, 3) == [];
    assert TypeReadings("SDS0X1", entry, 5) == [Reading(PM10, "SDS0X1", 3.0), Reading(PM2, "SDS0X1", 5.0)];
    assert ReadingsUpTo(data, 2) == TypeReadings("SDS0X1", entry, 6);
  }

  /** A present pressure field that is not numeric still yields a reading, of 0. */
  lemma DecodeNonNumericField()
    ensures SensorData(map["BMP280" := Map(map["Pressure" := Other, "Time" := Other])])
      == [Reading(Pressure, "BMP280", 0.0)]
  {
    var data := map["BMP280" := Map(map["Pressure" := Other, "Time" := Other])];
    var entry := data["BMP280"];
    assert TypeReadings("BMP280", entry, 2) == [Reading(Pressure, "BMP280", 0.0)];
    assert ReadingsUpTo(data, 4) == TypeReadings("BMP280", entry, 6);
  }
}
