/** The fixed tables that drive decoding: the hardware whitelist, the sensor
    types in their fixed order, and the reading record. */
module Tables {

  /** The closed set of sensor types (`SensorType` constants). */
  datatype SensorType = Temperature | Pressure | Humidity | PM10 | PM2 | Illuminance

  /** The string a sensor type stands for; it is both the payload field name
      looked up and, outside the PM family, the gauge series key. */
  function TypeName(t: SensorType): string
  {
    match t
    case Temperature => "Temperature"
    case Pressure => "Pressure"
    case Humidity => "Humidity"
    case PM10 => "PM10"
    case PM2 => "PM2.5"
    case Illuminance => "Illuminance"
  }

  /** `sensor_names`: the hardware whitelist, in decoding order. */
  const SensorNames: seq<string> := ["SI7021", "SDS0X1", "BH1750", "BMP280"]

  /** `sensor_types`: the sensor types, in decoding order. */
  const SensorTypes: seq<SensorType> := [Temperature, Pressure, Humidity, PM10, PM2, Illuminance]

  /** One decoded reading (`tasmotaSensorData`). */
  datatype Reading = Reading(kind: SensorType, sensorName: string, value: real)

  /** One decoded report (`tasmotaSensor`). */
  datatype Report = Report(deviceName: string, readings: seq<Reading>)

  predicate HasPrefix(s: string, prefix: string)
  {
    |prefix| <= |s| && s[..|prefix|] == prefix
  }

  predicate HasSuffix(s: string, suffix: string)
  {
    |suffix| <= |s| && s[|s| - |suffix|..] == suffix
  }

  /** The `unit_fields` pattern `Unit$`: the field name ends in "Unit". */
  predicate IsUnitField(k: string)
  {
    HasSuffix(k, "Unit")
  }

  /** The PM-family test the mapper and the gauge setup apply to a type's name. */
  predicate IsPMFamily(t: SensorType)
  {
    HasPrefix(TypeName(t), "PM")
  }

  /** Exactly the two particulate-matter types carry the "PM" prefix. */
  lemma PMFamilyMembers(t: SensorType)
    ensures IsPMFamily(t) <==> t == PM10 || t == PM2
  {
    // every other name already differs from "PM" in its first character
    var name := TypeName(t);
    if t != PM10 && t != PM2 {
      assert name[0] != 'P' || name[1] != 'M';
      assert name[..2][0] == name[0] && name[..2][1] == name[1];
    }
  }

  /** `TypeName` is injective: each field name selects one sensor type. */
  lemma TypeNameInjective(t: SensorType, u: SensorType)
    ensures TypeName(t) == TypeName(u) <==> t == u
  {
  }

  /** Position of a sensor type in `SensorTypes`. */
  function TypeIndex(t: SensorType): (i: nat)
    ensures i < |SensorTypes| && SensorTypes[i] == t
  {
    match t
    case Temperature => 0
    case Pressure => 1
    case Humidity => 2
    case PM10 => 3
    case PM2 => 4
    case Illuminance => 5
  }

  /** Position of a hardware name in `SensorNames`, or `|SensorNames|` when it is
      not whitelisted. */
  function NameIndex(name: string): (i: nat)
    ensures i <= |SensorNames|
    ensures i < |SensorNames| <==> name in SensorNames
    ensures i < |SensorNames| ==> SensorNames[i] == name
  {
    if name == SensorNames[0] then 0
    else if name == SensorNames[1] then 1
    else if name == SensorNames[2] then 2
    else if name == SensorNames[3] then 3
    else 4
  }

  /** The whitelist has no repeated entry, so positions determine names. */
  lemma NameIndexOfPosition(i: nat)
    requires i < |SensorNames|
    ensures NameIndex(SensorNames[i]) == i
  {
  }

  /** Every sensor type appears in the type table. */
  lemma AllTypesListed(t: SensorType)
    ensures t in SensorTypes
  {
  }
}
