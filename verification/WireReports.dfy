/** The decoder's own rules agree with the wire format, so it reads every report byte for byte. */
module WireReports {
  import opened Bytes
  import opened Schema
  import opened ReportLayout
  import opened WireFormat

  ghost function RulesIn(t: Table): (r: seq<Rule>)
    ensures |r| == Size(t)
  {
    match t
    case DataBits => ReportRules()
    case EventBits => EventDataRules()
    case CanBits1 => CanInfo1Rules()
    case CanBits2 => CanInfo2Rules()
    case ElectricBits => ElectricInfo1Rules()
    case CanBits3 => CanInfo3Rules()
    case AdvancedBits => CanAdvancedRules()
    case FixBits => GnssFixRules()
    case SatelliteBits => SatelliteRules()
    case SensorBits => OneWireRules()
  }

  lemma PairsAgree()
    ensures ShapesOf([U1, U1], RulesIn) == [UInt(1), UInt(1)] && ShapesOf([U2, U2], RulesIn) == [UInt(2), UInt(2)]
  {}

  lemma CanBits1Agree(bit: nat)
    ensures SameUse(CanBit1(bit), CanInfo1Rule(bit), RulesIn)
  {
    PairsAgree();
  }

  lemma CanBits2Agree(bit: nat)
    ensures SameUse(CanBit2(bit), CanInfo2Rule(bit), RulesIn)
  {
    PairsAgree();
  }

  lemma ElectricBitsAgree(bit: nat)
    ensures SameUse(ElectricBit(bit), ElectricInfo1Rule(bit), RulesIn)
  {}

  lemma CanBits3Agree(bit: nat)
    ensures SameUse(CanBit3(bit), CanInfo3Rule(bit), RulesIn)
  {}

  lemma EventRunsAgree()
    ensures ShapesOf([U1, U2], RulesIn) == [UInt(1), UInt(2)]
    ensures ShapesOf([U2, U4], RulesIn) == [UInt(2), UInt(4)]
    ensures ShapesOf([Opaque(3), Opaque(5)], RulesIn) == [Raw(3), Raw(5)]
    ensures ShapesOf([U1, U1, U1], RulesIn) == [UInt(1), UInt(1), UInt(1)]
  {}

  lemma LongRunsAgree()
    ensures ShapesOf([U1, U1, I2, I2, I2], RulesIn) == [UInt(1), UInt(1), SInt(2), SInt(2), SInt(2)]
    ensures ShapesOf([I1, I1, I1, I1, I1, I1, I1, I1, I1], RulesIn) ==
            [SInt(1), SInt(1), SInt(1), SInt(1), SInt(1), SInt(1), SInt(1), SInt(1), SInt(1)]
  {}

  lemma EventBitsAgree(bit: nat)
    ensures SameUse(EventBit(bit), EventDataRule(bit), RulesIn)
  {
    if bit == 1 || bit == 5 || bit == 10 || bit == 14 {
      EventRunsAgree();
    } else if bit == 11 || bit == 12 {
      LongRunsAgree();
    }
  }

  lemma FixBitsAgree(bit: nat)
    ensures SameUse(FixBit(bit), GnssFixRule(bit), RulesIn)
    ensures SameUse(SatelliteBit(bit), SatelliteRule(bit), RulesIn)
    ensures SameUse(SensorBit(bit), OneWireRule(bit), RulesIn)
  {}

  lemma DataBitsAgree(bit: nat)
    ensures SameUse(DataBit(bit), ReportRule(bit), RulesIn)
  {
    if bit < 8 {
      PlainBitsAgree(bit);
    } else {
      NestedBitsAgree(bit);
    }
  }

  lemma PlainBitsAgree(bit: nat)
    requires bit < 8
    ensures SameUse(DataBit(bit), ReportRule(bit), RulesIn)
  {
    DataRunsAgree();
  }

  lemma NestedBitsAgree(bit: nat)
    requires bit >= 8
    ensures SameUse(DataBit(bit), ReportRule(bit), RulesIn)
  {}

  lemma DataRunsAgree()
    ensures ShapesOf([U1, U1], RulesIn) == [UInt(1), UInt(1)]
    ensures ShapesOf([U2, U1], RulesIn) == [UInt(2), UInt(1)]
    ensures ShapesOf([U2, U2, U2, U4, U1], RulesIn) == [UInt(2), UInt(2), UInt(2), UInt(4), UInt(1)]
    ensures ShapesOf([U1, Dropped(2)], RulesIn) == [UInt(1), Skip(2)]
  {}

  lemma TablesAgree()
    ensures AllAgree(RulesIn)
  {
    forall t
      ensures Agrees(t, RulesIn(t), RulesIn)
    {
      forall bit | 0 <= bit < Size(t)
        ensures SameUse(UseOf(t, bit), RulesIn(t)[bit], RulesIn)
      {
        TableAgrees(t, bit);
      }
    }
  }

  lemma TableAgrees(t: Table, bit: nat)
    requires bit < Size(t)
    ensures SameUse(UseOf(t, bit), RulesIn(t)[bit], RulesIn)
  {
    if t.DataBits? || t.EventBits? {
      ReportTableAgrees(t, bit);
    } else if t.CanBits1? || t.CanBits2? || t.CanBits3? {
      CanTableAgrees(t, bit);
    } else {
      OtherTableAgrees(t, bit);
    }
  }

  lemma ReportTableAgrees(t: Table, bit: nat)
    requires (t.DataBits? || t.EventBits?) && bit < 32
    ensures SameUse(UseOf(t, bit), RulesIn(t)[bit], RulesIn)
  {
    if t.DataBits? {
      DataBitsAgree(bit);
    } else {
      EventBitsAgree(bit);
    }
  }

  lemma CanTableAgrees(t: Table, bit: nat)
    requires (t.CanBits1? || t.CanBits2? || t.CanBits3?) && bit < 32
    ensures SameUse(UseOf(t, bit), RulesIn(t)[bit], RulesIn)
  {
    if t.CanBits1? {
      CanBits1Agree(bit);
    } else if t.CanBits2? {
      CanBits2Agree(bit);
    } else {
      CanBits3Agree(bit);
    }
  }

  lemma OtherTableAgrees(t: Table, bit: nat)
    requires t.ElectricBits? || t.AdvancedBits? || t.FixBits? || t.SatelliteBits? || t.SensorBits?
    requires bit < Size(t)
    ensures SameUse(UseOf(t, bit), RulesIn(t)[bit], RulesIn)
  {
    if t.ElectricBits? {
      ElectricBitsAgree(bit);
    } else if !t.AdvancedBits? {
      FixBitsAgree(bit);
    }
  }

  // ------------------------------------------------------------------
  // Whole reports
  // ------------------------------------------------------------------

  /**
   * The report data zone, byte for byte. For every Data Mask and all fields it announces, in bit order:
   * the zone of two version bytes, event type, event state, the four bytes of the mask and the fields
   * decodes to exactly these fields, with the cursor at its end, and with warnings for exactly the
   * announced bits that no field is known for.
   */
  lemma ReportOnWire(version: Buffer, eventType: Byte, eventState: Byte, word: Buffer, fields: seq<Sent>, e: Buffer,
                     v: Value, ws: seq<Warning>)
    requires |version| == 2 && BlockSent(DataBits, word, fields, e, v, ws)
    ensures var zone := version + [eventType, eventState] + e;
            Decode(ReportShape(), zone, 0) ==
            Good(Items([Bytes(version), Num(eventType as int), Num(eventState as int), v]), |zone|, ws)
  {
    var tables, rules := TopTable();
    ZoneOnWire(tables, rules, version, eventType, eventState, word, fields, e, v, ws);
  }

  lemma TopTable() returns (tables: Tables, rules: seq<Rule>)
    ensures AllAgree(tables) && Agrees(DataBits, rules, tables)
    ensures ReportShape() == Tuple([Raw(2), U8, U8, Block(DataMask, rules)])
  {
    TablesAgree();
    tables, rules := RulesIn, RulesIn(DataBits);
    assert Agrees(DataBits, RulesIn(DataBits), RulesIn);
  }

  lemma ZoneOnWire(tables: Tables, rules: seq<Rule>, version: Buffer, eventType: Byte, eventState: Byte, word: Buffer,
                   fields: seq<Sent>, e: Buffer, v: Value, ws: seq<Warning>)
    requires AllAgree(tables) && Agrees(DataBits, rules, tables)
    requires |version| == 2 && BlockSent(DataBits, word, fields, e, v, ws)
    ensures var zone := version + [eventType, eventState] + e;
            Decode(Tuple([Raw(2), U8, U8, Block(DataMask, rules)]), zone, 0) ==
            Good(Items([Bytes(version), Num(eventType as int), Num(eventState as int), v]), |zone|, ws)
  {
    var zone := ZoneLies(version, eventType, eventState, e);
    MaskOnWire(tables, rules, word, fields, e, v, ws, zone);
    HeaderThenBlock(Block(DataMask, rules), zone, v, ws);
  }

  lemma MaskOnWire(tables: Tables, rules: seq<Rule>, word: Buffer, fields: seq<Sent>, e: Buffer, v: Value,
                   ws: seq<Warning>, zone: Buffer)
    requires AllAgree(tables) && Agrees(DataBits, rules, tables)
    requires BlockSent(DataBits, word, fields, e, v, ws) && Lies(zone, 4, e) && |zone| == 4 + |e|
    ensures |e| >= 4 && Decode(Block(DataMask, rules), zone, 4) == Good(v, |zone|, ws)
  {
    BlockReads(tables, DataBits, rules, word, fields, e, v, ws, zone, 4);
  }

  /** The fixed bytes in front of the Data Mask. */
  lemma HeaderThenBlock(block: Shape, zone: Buffer, v: Value, ws: seq<Warning>)
    requires block.Block? && |zone| >= 8 && Decode(block, zone, 4) == Good(v, |zone|, ws)
    ensures Decode(Tuple([Raw(2), U8, U8, block]), zone, 0) ==
            Good(Items([Bytes(zone[0..2]), Num(UIntAt(zone, 2, 1)), Num(UIntAt(zone, 3, 1)), v]), |zone|, ws)
  {
    EventThenBlock(block, zone, 2);
    DecodeCons(Raw(2), [U8] + ([U8] + ([block] + [])), zone, 0);
    assert [Raw(2), U8, U8, block] == [Raw(2)] + ([U8] + ([U8] + ([block] + [])));
    assert [Bytes(zone[0..2])] + [Num(UIntAt(zone, 2, 1)), Num(UIntAt(zone, 3, 1)), v] ==
           [Bytes(zone[0..2]), Num(UIntAt(zone, 2, 1)), Num(UIntAt(zone, 3, 1)), v];
  }

  lemma ZoneLies(version: Buffer, eventType: Byte, eventState: Byte, e: Buffer) returns (zone: Buffer)
    requires |version| == 2
    ensures zone == version + [eventType, eventState] + e && |zone| == 4 + |e| && Lies(zone, 4, e)
    ensures zone[0..2] == version
    ensures UIntAt(zone, 2, 1) == eventType as nat && UIntAt(zone, 3, 1) == eventState as nat
  {
    zone := version + [eventType, eventState] + e;
    WordReads(zone, 2);
    WordReads(zone, 3);
  }
  // ------------------------------------------------------------------
  // Names
  // ------------------------------------------------------------------

  function DataName(bit: nat): string {
    match bit
    case 0 => "frame"
    case 1 => "networkType"
    case 2 => "battery"
    case 3 => "gnss"
    case 4 => "cell"
    case 7 => "upgrade"
    case 8 => "eventData"
    case 9 => "canInfo1"
    case 10 => "canInfo2"
    case 11 => "electricInfo1"
    case 23 => "canInfo3"
    case 24 => "canAdvancedInfo1"
    case _ => ""
  }

  function EventName(bit: nat): string {
    match bit
    case 0 => "mainPowerVoltageMv"
    case 1 => "analogInput"
    case 2 => "ignitionMotionState"
    case 3 => "digitalInputState"
    case 4 => "digitalOutputState"
    case 5 => "mileage"
    case 7 => "geoStatusMask"
    case 8 => "idData"
    case 9 => "oneWire"
    case 10 => "hourMeter"
    case 11 => "selfCalibration"
    case 12 => "crash"
    case 14 => "certificate"
    case 21 => "peoStatus1to32"
    case 23 => "peoStatus33to50"
    case 25 => "canBusSyncId"
    case _ => ""
  }

  function CanName1(bit: nat): string {
    match bit
    case 0 => "vin"
    case 1 => "ignitionKey"
    case 2 => "totalDistanceHm"
    case 3 => "totalDistanceImpulses"
    case 4 => "totalFuelUsedMl"
    case 5 => "vehicleSpeedKmh"
    case 6 => "engineRpm"
    case 7 => "engineCoolantTemperatureC"
    case 8 => "fuelConsumption"
    case 9 => "fuelLevel"
    case 10 => "rangeKm"
    case 11 => "acceleratorPedalPressurePercent"
    case 12 => "totalEngineHoursSeconds"
    case 13 => "totalDrivingTimeSeconds"
    case 14 => "totalEngineIdleTimeSeconds"
    case 15 => "totalIdleFuelUsedMl"
    case 16 => "axleWeight1Kg"
    case 17 => "axleWeight2Kg"
    case 18 => "axleWeight3Kg"
    case 19 => "axleWeight4Kg"
    case 20 => "detailedIndicators1"
    case 21 => "detailedIndicators2"
    case 22 => "lights"
    case 23 => "doors"
    case 24 => "totalVehicleOverspeedTimeSeconds"
    case 25 => "totalVehicleEngineOverspeedTimeSeconds"
    case 26 => "engineColdStartsCount"
    case 27 => "engineAllStartsCount"
    case 28 => "engineStartsByIgnitionCount"
    case 29 => "totalEngineColdRunningTimeSeconds"
    case 30 => "handbrakeAppliesDuringRideCount"
    case _ => ""
  }

  function CanName2(bit: nat): string {
    match bit
    case 0 => "adBlueLevelPercent"
    case 1 => "retarderUsagePercent"
    case 2 => "powerMode"
    case 3 => "axleWeight5Kg"
    case 4 => "axleWeight6Kg"
    case 5 => "axleWeight7Kg"
    case 6 => "analogInputMv"
    case 7 => "engineBrakingFactor"
    case 8 => "pedalBrakingFactor"
    case 9 => "totalAcceleratorKickdowns"
    case 10 => "totalEffectiveEngineSpeedTimeSeconds"
    case 11 => "totalCruiseControlTimeSeconds"
    case 12 => "totalAcceleratorKickdownTimeSeconds"
    case 13 => "totalBrakeApplications"
    case 14 => "oilTemperatureC"
    case 15 => "trailerVin"
    case 18 => "registrationNumber"
    case 19 => "rapidBrakings"
    case 20 => "rapidAccelerations"
    case 21 => "engineTorquePercent"
    case 22 => "serviceDistanceKm"
    case 23 => "ambientTemperatureC"
    case 24 => "dtcCodes"
    case 25 => "gaseousFuelLevel"
    case 26 => "fuelLevelCombustion"
    case 27 => "totalFuelFromVehicleMl"
    case 28 => "totalGaseousFuelUsageKg"
    case 29 => "tyres"
    case 30 => "timeToServiceDays"
    case _ => ""
  }

  function ElectricName(bit: nat): string {
    match bit
    case 0 => "batteryInstantaneousVoltage"
    case 1 => "batteryChargingCyclesCount"
    case 2 => "totalEnergyRecuperated"
    case 3 => "batteryLevelPercent"
    case 4 => "chargingState"
    case 5 => "batteryTemperatureC"
    case 6 => "batteryChargingCurrent"
    case 7 => "batteryInstantaneousPower"
    case 8 => "batteryStateOfHealthPercent"
    case 9 => "totalEnergyUsed"
    case 10 => "totalEnergyUsedWhenIdling"
    case 11 => "totalEnergyCharged"
    case 12 => "onlyBatteryChargeLevelPercent"
    case _ => ""
  }

  function CanName3(bit: nat): string {
    match bit
    case 0 => "totalRetarderUsageTimeSeconds"
    case 2 => "totalCo2EmissionKg"
    case 3 => "totalPtoUsageTimeSeconds"
    case 4 => "totalFuelUsedWithPtoEngagedMl"
    case 8 => "currentGearNumber"
    case _ => ""
  }

  function FixName(bit: nat): string {
    match bit
    case 0 => "fixTypeRaw"
    case 1 => "hdop"
    case 2 => "speedKmh"
    case 3 => "azimuth"
    case 4 => "altitudeM"
    case 5 => "latitude"
    case 6 => "longitude"
    case 7 => "utcTime"
    case 8 => "satellites"
    case _ => ""
  }

  function SatelliteName(bit: nat): string {
    match bit
    case 0 => "gps"
    case 1 => "beidou"
    case 2 => "galileo"
    case 3 => "glonass"
    case _ => ""
  }

  function SensorName(bit: nat): string {
    match bit
    case 0 => "temperatureC"
    case 1 => "humidityPercent"
    case _ => ""
  }

  /** The payload field of a bit. */
  ghost predicate Named(name: string, rule: Rule) {
    rule.Field? ==> rule.name == name
  }

  /** Every decoded bit fills the payload field of its own name. */
  lemma FieldNames(bit: nat)
    ensures Named(DataName(bit), ReportRule(bit))
    ensures Named(EventName(bit), EventDataRule(bit))
    ensures Named(CanName1(bit), CanInfo1Rule(bit))
    ensures Named(CanName2(bit), CanInfo2Rule(bit))
    ensures Named(ElectricName(bit), ElectricInfo1Rule(bit))
    ensures Named(CanName3(bit), CanInfo3Rule(bit))
    ensures Named(FixName(bit), GnssFixRule(bit))
    ensures Named(SatelliteName(bit), SatelliteRule(bit))
    ensures Named(SensorName(bit), OneWireRule(bit))
  {
    DataNames(bit);
    EventNames(bit);
    CanName1s(bit);
    CanName2s(bit);
    ElectricNames(bit);
    CanName3s(bit);
    FixNames(bit);
    SatelliteNames(bit);
    SensorNames(bit);
  }

  lemma DataNames(bit: nat)
    ensures Named(DataName(bit), ReportRule(bit))
  {}

  lemma EventNames(bit: nat)
    ensures Named(EventName(bit), EventDataRule(bit))
  {}

  lemma CanName1s(bit: nat)
    ensures Named(CanName1(bit), CanInfo1Rule(bit))
  {}

  lemma CanName2s(bit: nat)
    ensures Named(CanName2(bit), CanInfo2Rule(bit))
  {}

  lemma ElectricNames(bit: nat)
    ensures Named(ElectricName(bit), ElectricInfo1Rule(bit))
  {}

  lemma CanName3s(bit: nat)
    ensures Named(CanName3(bit), CanInfo3Rule(bit))
  {}

  lemma FixNames(bit: nat)
    ensures Named(FixName(bit), GnssFixRule(bit))
  {}

  lemma SatelliteNames(bit: nat)
    ensures Named(SatelliteName(bit), SatelliteRule(bit))
  {}

  lemma SensorNames(bit: nat)
    ensures Named(SensorName(bit), OneWireRule(bit))
  {}
}
