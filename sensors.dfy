/** The kinds of sensor reading a node can report, and the static table
    that names each kind, gives its SI unit and the integer ratio that
    converts a protocol value into that unit. */
module Sensors {

  /** A reading kind: an 8-bit enumeration. */
  type SensorType = x: int | 0 <= x < 0x100

  const SensorTypeBattVolts: SensorType := 0
  const SensorTypeTemperature: SensorType := 1
  const SensorTypePressure: SensorType := 2
  const SensorTypeHumidity: SensorType := 3
  const SensorTypeSupplyVolts: SensorType := 4
  const SensorTypeLoadPower: SensorType := 5
  const SensorTypeCoils: SensorType := 6

  const AllSensorTypes: seq<SensorType> := [
    SensorTypeBattVolts,
    SensorTypeTemperature,
    SensorTypePressure,
    SensorTypeHumidity,
    SensorTypeSupplyVolts,
    SensorTypeLoadPower,
    SensorTypeCoils
  ]

  /** Name, unit and conversion ratio (value * mult / div) of one kind. */
  datatype SensorInfo = SensorInfo(name: string, unit: string, mult: int, div: int)

  const SensorMetadata: map<SensorType, SensorInfo> := map[
    SensorTypeBattVolts := SensorInfo("battery", "volts", 1, 1000),
    SensorTypeTemperature := SensorInfo("temperature", "celsius", 1, 100),
    SensorTypePressure := SensorInfo("pressure", "pascals", 10, 1),
    SensorTypeHumidity := SensorInfo("humidity", "percent", 1, 100),
    SensorTypeSupplyVolts := SensorInfo("supply", "volts", 1, 1000),
    SensorTypeLoadPower := SensorInfo("load", "watts", 1, 10),
    SensorTypeCoils := SensorInfo("coils", "", 1, 1)
  ]

  /** The kinds are 0..6 in declaration order, each listed exactly once. */
  lemma AllSensorTypesEnumerated()
    ensures |AllSensorTypes| == 7
    ensures forall i | 0 <= i < |AllSensorTypes| :: AllSensorTypes[i] == i
    ensures forall i, j | 0 <= i < j < |AllSensorTypes| :: AllSensorTypes[i] != AllSensorTypes[j]
  {
  }

  /** The metadata table has one entry per listed kind and no other. */
  lemma MetadataCoversAllTypes()
    ensures SensorMetadata.Keys == set t | t in AllSensorTypes
  {
  }

  /** Every conversion ratio has positive numerator and denominator. */
  lemma MetadataRatiosPositive()
    ensures forall t | t in SensorMetadata :: SensorMetadata[t].mult >= 1 && SensorMetadata[t].div >= 1
  {
  }

  /** Converts a raw protocol value of kind `t` into its SI unit. */
  function ToSI(t: SensorType, raw: int): (x: real)
    requires t in SensorMetadata
    ensures x * SensorMetadata[t].div as real == (raw * SensorMetadata[t].mult) as real
  {
    MetadataRatiosPositive();
    (raw * SensorMetadata[t].mult) as real / SensorMetadata[t].div as real
  }

  /** Battery 3700 mV is 3.7 V; a pressure value is in units of ten pascals. */
  lemma ConversionExamples(raw: int)
    ensures ToSI(SensorTypeBattVolts, 3700) == 37.0 / 10.0
    ensures ToSI(SensorTypePressure, raw) == (10 * raw) as real
    ensures ToSI(SensorTypeCoils, raw) == raw as real
  {
  }
}
