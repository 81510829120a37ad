/** The +RPT/-RPT data zone, bit by bit, and what follows for it from the schema theorems. */
module ReportLayout {
  import opened Bytes
  import opened Schema
  import opened Truncation

  const U8 := UInt(1)
  const U16 := UInt(2)
  const U24 := UInt(3)
  const U32 := UInt(4)
  const I8 := SInt(1)
  const I16 := SInt(2)
  const I32 := SInt(4)

  /** Shapes without masks: numbers, bytes, and tuples and lists of them. */
  ghost predicate Simple(s: Shape)
    decreases s
  {
    match s
    case Tuple(items) => forall x :: x in items ==> Simple(x)
    case Counted(item, _) => Simple(item)
    case Flags(_, _) => false
    case Repeated(_, _) => false
    case Block(_, _) => false
    case _ => true
  }

  /** Satellite mask of a GNSS fix. */
  function SatelliteRule(bit: nat): (r: Rule)
    ensures r.Field? ==> Plain(r.shape)
  {
    match bit
    case 0 => Field("gps", U8)
    case 1 => Field("beidou", U8)
    case 2 => Field("galileo", U8)
    case 3 => Field("glonass", U8)
    case _ => Unsupported
  }

  function SatelliteRules(): (r: seq<Rule>)
    ensures |r| == 4 && forall i :: 0 <= i < 4 ==> r[i] == SatelliteRule(i)
    ensures PlainRules(r)
  {
    seq(4, i requires 0 <= i < 4 => SatelliteRule(i))
  }

  /** Info mask of the GNSS fixes. */
  function GnssFixRule(bit: nat): (r: Rule)
    ensures r.Field? ==> Plain(r.shape)
  {
    match bit
    case 0 => Field("fixTypeRaw", U8)
    case 1 => Field("hdop", U8)
    case 2 => Field("speedKmh", U16)
    case 3 => Field("azimuth", U16)
    case 4 => Field("altitudeM", I16)
    case 5 => Field("latitude", I32)
    case 6 => Field("longitude", I32)
    case 7 => Field("utcTime", Raw(7))
    case 8 => Field("satellites", Flags(1, SatelliteRules()))
    case _ => Unsupported
  }

  function GnssFixRules(): (r: seq<Rule>)
    ensures |r| == 9 && forall i :: 0 <= i < 9 ==> r[i] == GnssFixRule(i)
    ensures PlainRules(r)
  {
    seq(9, i requires 0 <= i < 9 => GnssFixRule(i))
  }

  /** Data mask of a 1-wire sensor. */
  function OneWireRule(bit: nat): (r: Rule)
    ensures r.Field? ==> Plain(r.shape)
  {
    match bit
    case 0 => Field("temperatureC", I16)
    case 1 => Field("humidityPercent", U8)
    case _ => Unsupported
  }

  function OneWireRules(): (r: seq<Rule>)
    ensures |r| == 2 && forall i :: 0 <= i < 2 ==> r[i] == OneWireRule(i)
    ensures PlainRules(r)
  {
    seq(2, i requires 0 <= i < 2 => OneWireRule(i))
  }

  /** A 1-wire sensor: its id, a mask byte, and the readings the mask announces. */
  function OneWireReading(): (s: Shape)
    ensures Plain(s)
  {
    Tuple([Raw(8), Flags(1, OneWireRules())])
  }

  /** Event Data Mask. */
  function EventDataRule(bit: nat): (r: Rule)
    ensures r.Field? ==> Plain(r.shape)
  {
    match bit
    case 0 => Field("mainPowerVoltageMv", U16)
    case 1 => Field("analogInput", Tuple([U8, U16]))
    case 2 => Field("ignitionMotionState", U8)
    case 3 => Field("digitalInputState", U8)
    case 4 => Field("digitalOutputState", U8)
    case 5 => Field("mileage", Tuple([U16, U32]))
    case 6 => Reserved
    case 7 => Field("geoStatusMask", U32)
    case 8 => Field("idData", Blob)
    case 9 => Field("oneWire", Counted(OneWireReading(), true))
    case 10 => Field("hourMeter", Tuple([Raw(3), Raw(5)]))
    case 11 => Field("selfCalibration", Tuple([I8, I8, I8, I8, I8, I8, I8, I8, I8]))
    case 12 => Field("crash", Tuple([U8, U8, I16, I16, I16]))
    case 13 => Reserved
    case 14 => Field("certificate", Tuple([U8, U8, U8]))
    case 21 => Field("peoStatus1to32", U32)
    case 23 => Field("peoStatus33to50", U32)
    case 25 => Field("canBusSyncId", U32)
    case _ => Unsupported
  }

  function EventDataRules(): (r: seq<Rule>)
    ensures |r| == 32 && forall i :: 0 <= i < 32 ==> r[i] == EventDataRule(i)
    ensures PlainRules(r)
  {
    seq(32, i requires 0 <= i < 32 => EventDataRule(i))
  }

  /** CAN Info Mask 1. */
  function CanInfo1Rule(bit: nat): (r: Rule)
    ensures r.Field? ==> Plain(r.shape) && Simple(r.shape)
  {
    match bit
    case 0 => Field("vin", Ascii)
    case 1 => Field("ignitionKey", U8)
    case 2 => Field("totalDistanceHm", U32)
    case 3 => Field("totalDistanceImpulses", U32)
    case 4 => Field("totalFuelUsedMl", U32)
    case 5 => Field("vehicleSpeedKmh", U16)
    case 6 => Field("engineRpm", U16)
    case 7 => Field("engineCoolantTemperatureC", I16)
    case 8 => Field("fuelConsumption", Tuple([U16, U16]))
    case 9 => Field("fuelLevel", Tuple([U8, U8]))
    case 10 => Field("rangeKm", U24)
    case 11 => Field("acceleratorPedalPressurePercent", U8)
    case 12 => Field("totalEngineHoursSeconds", U32)
    case 13 => Field("totalDrivingTimeSeconds", U32)
    case 14 => Field("totalEngineIdleTimeSeconds", U32)
    case 15 => Field("totalIdleFuelUsedMl", U32)
    case 16 => Field("axleWeight1Kg", U16)
    case 17 => Field("axleWeight2Kg", U16)
    case 18 => Field("axleWeight3Kg", U16)
    case 19 => Field("axleWeight4Kg", U16)
    case 20 => Field("detailedIndicators1", U32)
    case 21 => Field("detailedIndicators2", U32)
    case 22 => Field("lights", U8)
    case 23 => Field("doors", U8)
    case 24 => Field("totalVehicleOverspeedTimeSeconds", U32)
    case 25 => Field("totalVehicleEngineOverspeedTimeSeconds", U32)
    case 26 => Field("engineColdStartsCount", U24)
    case 27 => Field("engineAllStartsCount", U24)
    case 28 => Field("engineStartsByIgnitionCount", U24)
    case 29 => Field("totalEngineColdRunningTimeSeconds", U32)
    case 30 => Field("handbrakeAppliesDuringRideCount", U16)
    case _ => Unsupported
  }

  function CanInfo1Rules(): (r: seq<Rule>)
    ensures |r| == 32 && forall i :: 0 <= i < 32 ==> r[i] == CanInfo1Rule(i)
    ensures PlainRules(r)
  {
    seq(32, i requires 0 <= i < 32 => CanInfo1Rule(i))
  }

  /** CAN Info Mask 2. */
  function CanInfo2Rule(bit: nat): (r: Rule)
    ensures r.Field? ==> Plain(r.shape) && Simple(r.shape)
  {
    match bit
    case 0 => Field("adBlueLevelPercent", U8)
    case 1 => Field("retarderUsagePercent", U8)
    case 2 => Field("powerMode", U8)
    case 3 => Field("axleWeight5Kg", U16)
    case 4 => Field("axleWeight6Kg", U16)
    case 5 => Field("axleWeight7Kg", U16)
    case 6 => Field("analogInputMv", U16)
    case 7 => Field("engineBrakingFactor", U32)
    case 8 => Field("pedalBrakingFactor", U32)
    case 9 => Field("totalAcceleratorKickdowns", U24)
    case 10 => Field("totalEffectiveEngineSpeedTimeSeconds", U32)
    case 11 => Field("totalCruiseControlTimeSeconds", U32)
    case 12 => Field("totalAcceleratorKickdownTimeSeconds", U32)
    case 13 => Field("totalBrakeApplications", U24)
    case 14 => Field("oilTemperatureC", I16)
    case 15 => Field("trailerVin", Ascii)
    case 16 => Reserved
    case 17 => Reserved
    case 18 => Field("registrationNumber", Ascii)
    case 19 => Field("rapidBrakings", U24)
    case 20 => Field("rapidAccelerations", U24)
    case 21 => Field("engineTorquePercent", U8)
    case 22 => Field("serviceDistanceKm", I32)
    case 23 => Field("ambientTemperatureC", I16)
    case 24 => Field("dtcCodes", Counted(Raw(3), false))
    case 25 => Field("gaseousFuelLevel", Tuple([U8, U8]))
    case 26 => Field("fuelLevelCombustion", Tuple([U8, U8]))
    case 27 => Field("totalFuelFromVehicleMl", U32)
    case 28 => Field("totalGaseousFuelUsageKg", U32)
    case 29 => Field("tyres", Counted(Tuple([U8, U16, U24, U8]), false))
    case 30 => Field("timeToServiceDays", U16)
    case _ => Unsupported
  }

  function CanInfo2Rules(): (r: seq<Rule>)
    ensures |r| == 32 && forall i :: 0 <= i < 32 ==> r[i] == CanInfo2Rule(i)
    ensures PlainRules(r)
  {
    seq(32, i requires 0 <= i < 32 => CanInfo2Rule(i))
  }

  /** Electric Info Mask 1. */
  function ElectricInfo1Rule(bit: nat): (r: Rule)
    ensures r.Field? ==> Plain(r.shape) && Simple(r.shape)
  {
    match bit
    case 0 => Field("batteryInstantaneousVoltage", U16)
    case 1 => Field("batteryChargingCyclesCount", U16)
    case 2 => Field("totalEnergyRecuperated", U32)
    case 3 => Field("batteryLevelPercent", U8)
    case 4 => Field("chargingState", U16)
    case 5 => Field("batteryTemperatureC", I16)
    case 6 => Field("batteryChargingCurrent", U16)
    case 7 => Field("batteryInstantaneousPower", I16)
    case 8 => Field("batteryStateOfHealthPercent", U8)
    case 9 => Field("totalEnergyUsed", U32)
    case 10 => Field("totalEnergyUsedWhenIdling", U32)
    case 11 => Field("totalEnergyCharged", U32)
    case 12 => Field("onlyBatteryChargeLevelPercent", U8)
    case _ => Unsupported
  }

  function ElectricInfo1Rules(): (r: seq<Rule>)
    ensures |r| == 32 && forall i :: 0 <= i < 32 ==> r[i] == ElectricInfo1Rule(i)
    ensures PlainRules(r)
  {
    seq(32, i requires 0 <= i < 32 => ElectricInfo1Rule(i))
  }

  /** CAN Info Mask 3. */
  function CanInfo3Rule(bit: nat): (r: Rule)
    ensures r.Field? ==> Plain(r.shape) && Simple(r.shape)
  {
    match bit
    case 0 => Field("totalRetarderUsageTimeSeconds", U32)
    case 2 => Field("totalCo2EmissionKg", U32)
    case 3 => Field("totalPtoUsageTimeSeconds", U32)
    case 4 => Field("totalFuelUsedWithPtoEngagedMl", U32)
    case 8 => Field("currentGearNumber", U8)
    case _ => Unsupported
  }

  function CanInfo3Rules(): (r: seq<Rule>)
    ensures |r| == 32 && forall i :: 0 <= i < 32 ==> r[i] == CanInfo3Rule(i)
    ensures PlainRules(r)
  {
    seq(32, i requires 0 <= i < 32 => CanInfo3Rule(i))
  }

  /** CAN Advanced Info Mask 1: AdvCAN PID n is bit n - 1, and every bit carries a length-prefixed reading. */
  function CanAdvancedRule(bit: nat): (r: Rule)
    ensures r.Field? && Plain(r.shape)
  {
    Field("pid", Blob)
  }

  function CanAdvancedRules(): (r: seq<Rule>)
    ensures |r| == 32 && forall i :: 0 <= i < 32 ==> r[i] == CanAdvancedRule(i)
    ensures PlainRules(r)
  {
    seq(32, i requires 0 <= i < 32 => CanAdvancedRule(i))
  }

  /** Data Mask: plain fields first, then, from bit 8 on, only blocks of plain fields. */
  function ReportRule(bit: nat): (r: Rule)
    ensures r.Field? ==> if bit < 8 then Plain(r.shape) else r.shape.Block? && PlainRules(r.shape.rules)
  {
    match bit
    case 0 => Field("frame", Tuple([U8, U8]))
    case 1 => Field("networkType", U8)
    case 2 => Field("battery", Tuple([U16, U8]))
    case 3 => Field("gnss", Repeated(2, GnssFixRules()))
    case 4 => Field("cell", Tuple([U16, U16, U16, U32, U8]))
    case 5 => Reserved
    case 6 => Reserved
    case 7 => Field("upgrade", Tuple([U8, Skip(2)]))
    case 8 => Field("eventData", Block(EventDataMask, EventDataRules()))
    case 9 => Field("canInfo1", Block(CanInfoMask1, CanInfo1Rules()))
    case 10 => Field("canInfo2", Block(CanInfoMask2, CanInfo2Rules()))
    case 11 => Field("electricInfo1", Block(ElectricInfoMask1, ElectricInfo1Rules()))
    case 23 => Field("canInfo3", Block(CanInfoMask3, CanInfo3Rules()))
    case 24 => Field("canAdvancedInfo1", Block(CanAdvancedInfoMask1, CanAdvancedRules()))
    case _ => Unsupported
  }

  function ReportRules(): (r: seq<Rule>)
    ensures |r| == 32 && forall i :: 0 <= i < 32 ==> r[i] == ReportRule(i)
  {
    seq(32, i requires 0 <= i < 32 => ReportRule(i))
  }

  /** Protocol version, event type, event state, then the Data Mask and its fields. */
  function ReportShape(): Shape {
    Tuple([Raw(2), U8, U8, Block(DataMask, ReportRules())])
  }

  const HEADER_BYTES := 8

  /** A report zone either misses part of its 8-byte header, or is its header and the scan of its mask. */
  lemma ReportUnfolds(rules: seq<Rule>, zone: Buffer)
    ensures var d := Decode(Tuple([Raw(2), U8, U8, Block(DataMask, rules)]), zone, 0);
            if |zone| < HEADER_BYTES then d.Cut? && d.warnings == []
            else
              var s := DecodeBits(rules, UIntAt(zone, 4, 4), 0, zone, 8);
              && d.Good? && d.pos == s.pos
              && d.value == Items([Bytes(zone[0..2]), Num(UIntAt(zone, 2, 1)), Num(UIntAt(zone, 3, 1)),
                                   Fields(UIntAt(zone, 4, 4), s.entries, s.unsupported)])
              && d.warnings == s.warnings + BlockWarnings(DataMask, s)
  {
    var block := Block(DataMask, rules);
    assert [Raw(2), U8, U8, block] == [Raw(2)] + ([U8] + ([U8] + ([block] + [])));
    DecodeCons(Raw(2), [U8] + ([U8] + ([block] + [])), zone, 0);
    if |zone| >= 2 {
      EventThenBlock(block, zone, 2);
    }
  }

  lemma EventThenBlock(block: Shape, b: Buffer, p: nat)
    requires p <= |b| && block.Block?
    ensures var r := DecodeAll([U8] + ([U8] + ([block] + [])), b, p);
            if |b| - p < 6 then !r.done && r.warnings == []
            else
              var d := Decode(block, b, p + 2);
              d.Good? && r == Many([Num(UIntAt(b, p, 1)), Num(UIntAt(b, p + 1, 1)), d.value], true, d.pos, d.warnings)
  {
    DecodeCons(U8, [U8] + ([block] + []), b, p);
    if |b| > p {
      DecodeCons(U8, [block] + [], b, p + 1);
      if |b| > p + 1 {
        DecodeCons(block, [], b, p + 2);
      }
    }
  }
}
