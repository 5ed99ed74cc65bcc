# Tasmota sensor reports to gauges: a Dafny model

This project models the message-to-metric translation of the Tasmota sensor
collector of `mqtt_data_exporter` (`tasmota/sensor.go`): Tasmota devices publish
a `SENSOR` report on the bus; the collector keeps only topics of the shape
`<device>/<prefix>/SENSOR`, projects the parsed payload through a fixed whitelist
of hardware modules (`SI7021`, `SDS0X1`, `BH1750`, `BMP280`) and a fixed list of
sensor types (`Temperature`, `Pressure`, `Humidity`, `PM10`, `PM2.5`,
`Illuminance`) into an ordered list of readings, and writes each reading into a
gauge table: a per-type gauge labelled by device and hardware name, or, for the
particulate-matter family, the shared `pm` gauge with an extra resolution label.

Modules, one per component of the source file:

- `Payload` (payload.dfy): the parsed value tree (`Map | Float | Int | Other`),
  the outcome of top-level parsing, and `Option`/`Result`.
- `Tables` (tables.dfy): `SensorType`, its strings, the two tables, and the
  reading and report records.
- `Topic` (topic.dfy): `strings.Split` on `/` with its inverse `Join`, and the
  topic filter.
- `Decoder` (decoder.dfy): `getSingleReadout`, `getSensorData` (a method with
  the source's nested loops, proved equal to the specification function
  `SensorData`), `UnmarshalYAML`, and the properties of the decoded readings.
- `Keys` (keys.dfy): `getKeys`, the split of a mapping's keys into unit and
  other keys, as a loop over the keys in unspecified order.
- `Collector` (collector.dfy): the registered gauge table, the routing of a
  reading to a gauge key, the specification `Apply` of a report's writes, and
  the class `SensorCollector` whose constructor fills the table in a loop and
  whose `UpdateState` writes the readings in place.

Three points where the code behaves differently from what one might expect:

- A present but non-numeric field is not skipped. The type switch in
  `getSingleReadout` (lines 92-106) has no default branch, so such a field
  yields a reading with value 0 (`Decoder.SingleReadout`,
  `Decoder.DecodeNonNumericField`).
- Unit fields are not filtered out by `getKeys`: the decoder never calls it.
  They are never read because the decoder looks fields up by exact type name;
  `Decoder.UnitFieldIgnored` proves that a unit field never yields or alters
  a reading.
- Four per-type gauges are registered, not six: the setup loop (lines
  136-147) skips the two PM-family types, which share the `pm` gauge
  (`Collector.RegisteredGauges`).

## Model

| member | source | states |
|---|---|---|
| `Tables.TypeName` | tasmota/sensor.go:22-29 | definition of the `SensorType` strings; see `TypeNameInjective`, `PMFamilyMembers`, `NoTypeNameIsAuxiliary` |
| `Tables.IsPMFamily` | tasmota/sensor.go:187 | definition of the `strings.HasPrefix(..., "PM")` test (also line 137); see `PMFamilyMembers` |
| `Tables.IsUnitField` | tasmota/sensor.go:18 | definition of the `unit_fields` pattern `Unit$`; see `Keys.GetKeys`, `Decoder.UnitFieldIgnored` |
| `Tables.PMFamilyMembers` | tasmota/sensor.go:187 | the `"PM"` prefix test holds exactly for `PM10` and `PM2.5` |
| `Tables.TypeNameInjective` | tasmota/sensor.go:22-29 | distinct sensor types have distinct strings |
| `Tables.TypeIndex` | tasmota/sensor.go:16 | every type has a position in `sensor_types` holding that type |
| `Tables.NameIndex` | tasmota/sensor.go:15 | a name has a position in `sensor_names` exactly when it is whitelisted, and that position holds the name |
| `Tables.NameIndexOfPosition` | tasmota/sensor.go:15 | the whitelist has no repeated entry |
| `Tables.AllTypesListed` | tasmota/sensor.go:16 | `sensor_types` lists every sensor type |
| `Topic.Split` | tasmota/sensor.go:129 | `strings.Split(topic, "/")` has one more segment than `/` characters; no segment holds `/`; joining the segments back with `/` gives the topic |
| `Topic.SplitJoin` | tasmota/sensor.go:129 | splitting a join of `/`-free segments gives back those segments |
| `Topic.SplitSlashFree` | tasmota/sensor.go:129 | a topic without `/` is one segment |
| `Topic.IsSensorMessage` | tasmota/sensor.go:128-131 | definition of `isTasmotaSensorMessage`; see `SensorMessageShape` and the three topic examples |
| `Topic.SensorMessageShape` | tasmota/sensor.go:128-131 | the filter accepts a topic exactly when it is `a/b/SENSOR` with `a`, `b` free of `/` (possibly empty) |
| `Topic.AcceptsTelemetryTopic` | tasmota/sensor.go:128-131 | `<device>/tele/SENSOR` is accepted for every device name without `/` |
| `Topic.RejectsResultTopic` | tasmota/sensor.go:128-131 | `dev1/stat/RESULT` is rejected |
| `Topic.RejectsLongerTopic` | tasmota/sensor.go:128-131 | `a/b/SENSOR/x` is rejected |
| `Decoder.SingleReadout` | tasmota/sensor.go:76-115 | a reading exists exactly when the entry is map-shaped and has a field named exactly after the type; it carries the type and hardware name; a float field gives its value, an int field its value as a real, any other kind of field 0 |
| `Decoder.SensorData` | tasmota/sensor.go:60-74 | definition of the result of `getSensorData`; see `ReadingMembership`, `SensorDataShape`, `SensorDataLocal` |
| `Decoder.GetSensorData` | tasmota/sensor.go:60-74 | the nested loops over whitelist and types return `SensorData` of the payload |
| `Decoder.Unmarshal` | tasmota/sensor.go:47-58 | an unparsable payload is an error; a parsed one gives `SensorData` of its top-level mapping |
| `Decoder.ReadingMembership` | tasmota/sensor.go:60-74 | a reading is decoded exactly when its hardware name is whitelisted and present and `getSingleReadout` yields that reading for its type |
| `Decoder.ReadingExists` | tasmota/sensor.go:86-90 | for a whitelisted name, some reading of `(name, type)` exists exactly when the entry is map-shaped and holds a field named exactly after the type |
| `Decoder.SensorDataShape` | tasmota/sensor.go:60-74 | every reading has a whitelisted hardware name and a listed type; readings come in whitelist order, then type order; no `(hardware, type)` pair repeats; at most 4 x 6 readings |
| `Decoder.SensorDataLocal` | tasmota/sensor.go:61-63 | payloads that agree on the whitelisted top-level keys decode to the same readings |
| `Decoder.WrongShapedSkipped` | tasmota/sensor.go:80-84 | a whitelisted entry that is not map-shaped gives no reading and the rest decode as if it were absent |
| `Decoder.NonTypeFieldIgnored` | tasmota/sensor.go:86 | adding or changing a field whose name is no type name leaves the decoded readings unchanged |
| `Decoder.NoTypeNameIsAuxiliary` | tasmota/sensor.go:17-18 | no type name ends in `Unit` or equals `Time` |
| `Decoder.UnitFieldIgnored` | tasmota/sensor.go:18 | a field ending in `Unit`, whatever its value, leaves the decoded readings unchanged |
| `Decoder.DecodeClimateReport` | tasmota/sensor.go:92-114 | `{SI7021: {Temperature: 21.5, Humidity: 55}}` decodes to a temperature reading of 21.5 and a humidity reading of 55 |
| `Decoder.DecodeParticulateReport` | tasmota/sensor.go:86-114 | `{SDS0X1: {PM10: 3, PM10Unit: .., PM2.5: 5}}` decodes to a `PM10` reading of 3 and a `PM2.5` reading of 5 |
| `Decoder.DecodeNonNumericField` | tasmota/sensor.go:77-114 | a non-numeric `Pressure` field of `BMP280` yields a reading of 0; a `Time` field yields none |
| `Keys.GetKeys` | tasmota/sensor.go:117-126 | the two result lists hold each key of the input exactly once between them; `units` only keys ending in `Unit`, `keys` only the others |
| `Keys.PartitionMembership` | tasmota/sensor.go:117-126 | a key is in `units` exactly when it is an input key ending in `Unit`, in `keys` exactly when it is any other input key, and in one of them once |
| `Collector.RegisteredGauges` | tasmota/sensor.go:136-156 | the gauge table holds `Temperature`, `Pressure`, `Humidity`, `Illuminance` with labels (instance, sensor name) and `pm` with labels (instance, sensor name, resolution) |
| `Collector.TypeGauges` | tasmota/sensor.go:136-147 | definition of what the setup loop has registered after a prefix of the types; see `TypeGaugesTable` |
| `Collector.TypeGaugesTable` | tasmota/sensor.go:136-147 | the setup loop registers exactly the four types outside the PM family |
| `Collector.Route` | tasmota/sensor.go:187-192 | PM10 and PM2.5 readings go to `pm` with labels `[device, sensorName, type]`, every other type to the gauge of its type with labels `[device, sensorName]` |
| `Collector.RouteRegistered` | tasmota/sensor.go:136-156 | every reading's gauge is registered and gets one label value per label name of that gauge |
| `Collector.RouteInjective` | tasmota/sensor.go:187-191 | two readings of one device share a gauge key exactly when they share hardware name and type |
| `Collector.Apply` | tasmota/sensor.go:184-193 | definition of the effect of `updateState` on the gauge values; see `ApplyLookup`, `ApplyIdempotent`, `ApplyWellFormed` |
| `Collector.ApplyLookup` | tasmota/sensor.go:184-193 | after a report, a key written by some reading holds the value of the last such reading; every other key keeps its old value or stays absent |
| `Collector.LastWriteNone` | tasmota/sensor.go:184-193 | a key is written exactly when some reading is routed to it |
| `Collector.LastWriteIsLast` | tasmota/sensor.go:184-193 | the value a key ends with is that of the last reading routed to it |
| `Collector.ApplyIdempotent` | tasmota/sensor.go:184-193 | applying a report twice leaves the table as applying it once |
| `Collector.ApplyWellFormed` | tasmota/sensor.go:184-193 | writes keep every stored key registered and of the right arity |
| `Collector.ClimateReportGauges` | tasmota/sensor.go:189 | the climate readings of `dev1` fill `Temperature` and `Humidity` under labels `[dev1, SI7021]` |
| `Collector.ParticulateReportGauges` | tasmota/sensor.go:191 | the PM readings of `dev1` fill `pm` under resolutions `PM10` and `PM2.5` |
| `Collector.SensorCollector.constructor` | tasmota/sensor.go:133-162 | the collector starts with the registered gauge table and no values |
| `Collector.SensorCollector.UpdateState` | tasmota/sensor.go:184-194 | the table keeps its registered gauges and well-formed keys; the values become `Apply` of the old values and the report; exactly one write per reading, in order, to the reading's route |

## Left out

- The collector loop (`collector()`, lines 164-182): channel plumbing around
  `receiveMessage`, `fatal` and `GetDeviceName`, which are not part of this
  model. Informally: a payload that fails to parse ends the loop, and the device
  name comes from the message, not from the payload.
- YAML parsing (`yaml.Unmarshal`): the parsed tree is the input. Which Go
  map type the library builds for nested mappings is library behaviour; `Map`
  stands for the type the assertion at line 80 accepts,
  `map[interface{}]interface{}`, and every example here assumes the parser
  delivers nested mappings of that type. If the parser built them as
  `map[string]interface{}` instead, every entry would take the wrong-shaped
  path (`Decoder.WrongShapedSkipped`) and no reading would be emitted.
  Non-string keys of a nested mapping are not represented; they can never
  match a type name.
- Numeric kinds: `Float` is a Go `float64`, `Int` a Go `int`. Any other numeric
  kind the parser may produce (a `uint64`, say) is `Other` and so reads as 0.
  Values are reals: no float rounding, NaN or infinity, and the `int` to
  `float64` conversion is exact in the model.
- Key order of the top-level payload: a Dafny map has none, so permuted
  payloads are the same input. `Decoder.SensorDataLocal` states what the
  result depends on.
- Prometheus: `NewGaugeVec`, `MustRegister`, `WithLabelValues` and the metric
  names and help texts built with `fmt.Sprintf` are library calls. The gauge
  table is a map from (series key, label values) to a value, beside the map
  from series key to label names.
- Logging (`debug`, `warn`, `info`) has no effect on the result.
- `non_sensor_fields` (line 17) and `sensorClientId` (line 13) are declared
  and never used by this code. `getKeys` is modelled on its own; nothing calls it.
