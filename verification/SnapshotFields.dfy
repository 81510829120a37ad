/** Where the device snapshot comes from: every column, in terms of the mask bits of the decoded report. */
module SnapshotFields {
  import opened Bytes
  import opened Wrappers
  import opened Schema
  import opened ReportLayout
  import opened ReportTheorems
  import opened DeviceStore
  import opened CutSnapshot
  import AsciiZone
  import FrameParser

  /** A mask bit was decoded to this value. */
  ghost predicate Has(entries: seq<Entry>, bit: nat, v: Value) {
    Entry(bit, v) in entries
  }

  /** No bit was decoded twice. */
  ghost predicate OncePerBit(entries: seq<Entry>) {
    forall i, j :: 0 <= i < j < |entries| ==> entries[i].bit < entries[j].bit
  }

  lemma {:induction false} FindsTheBit(entries: seq<Entry>, bit: nat)
    requires OncePerBit(entries)
    ensures forall v :: Find(entries, bit) == Some(v) <==> Has(entries, bit, v)
  {
    if entries != [] {
      var first, more := entries[0], entries[1..];
      FindsTheBit(more, bit);
      assert entries == [first] + more;
      forall e | e in more
        ensures e.bit > first.bit
      {
        var i :| 0 <= i < |more| && more[i] == e;
        assert entries[i + 1] == e;
      }
    }
  }

  lemma {:induction false} ScansOnce(rules: seq<Rule>, mask: nat, bit: nat, b: Buffer, p: nat)
    requires p <= |b| && bit <= |rules|
    ensures var es := DecodeBits(rules, mask, bit, b, p).entries;
            OncePerBit(es) && forall e :: e in es ==> e.bit >= bit
    decreases |rules| - bit
  {
    if bit < |rules| {
      if Bit(mask, bit) && rules[bit].Field? {
        ScansOnce(rules, mask, bit + 1, b, Decode(rules[bit].shape, b, p).pos);
      } else {
        ScansOnce(rules, mask, bit + 1, b, p);
      }
    }
  }

  /** Every record was decoded once per bit. */
  ghost predicate RecordsOnce(vs: seq<Value>) {
    forall v :: v in vs ==> v.Fields? && OncePerBit(v.entries)
  }

  lemma {:induction false} RecordsDecodedOnce(rules: seq<Rule>, mask: nat, n: nat, b: Buffer, p: nat)
    requires p <= |b|
    ensures RecordsOnce(DecodeRecords(rules, mask, n, b, p).values)
    decreases n
  {
    if n > 0 {
      ScansOnce(rules, mask, 0, b, p);
      var f := DecodeBits(rules, mask, 0, b, p);
      if f.stop.None? {
        RecordsDecodedOnce(rules, mask, n - 1, b, f.pos);
      }
    }
  }

  ghost predicate FixesOnce(v: Value) {
    v.Records? ==> RecordsOnce(v.records)
  }

  lemma ShapeDecodesOnce(s: Shape, b: Buffer, p: nat)
    requires p <= |b| && s.Repeated?
    ensures var d := Decode(s, b, p); (d.Good? ==> FixesOnce(d.value)) && (d.Cut? ==> d.partial.None?)
  {
    if |b| - p > s.width {
      RecordsDecodedOnce(s.rules, UIntAt(b, p, s.width), b[p + s.width] as nat, b, p + s.width + 1);
    }
  }

  /** The entries of a decoded report: no bit twice, nor in any of its fixes. */
  ghost predicate Decoded(entries: seq<Entry>) {
    OncePerBit(entries) && forall e :: e in entries && e.bit == 3 ==> FixesOnce(e.value)
  }

  lemma {:induction false} FixesScannedOnce(rules: seq<Rule>, mask: nat, bit: nat, b: Buffer, p: nat)
    requires p <= |b| && bit <= |rules| && 3 < |rules| && rules[3].Field? && rules[3].shape.Repeated?
    ensures forall e :: e in DecodeBits(rules, mask, bit, b, p).entries && e.bit == 3 ==> FixesOnce(e.value)
    decreases |rules| - bit
  {
    if bit < |rules| {
      if Bit(mask, bit) && rules[bit].Field? {
        var d := Decode(rules[bit].shape, b, p);
        if bit == 3 {
          ShapeDecodesOnce(rules[3].shape, b, p);
        }
        FixesScannedOnce(rules, mask, bit + 1, b, d.pos);
      } else {
        FixesScannedOnce(rules, mask, bit + 1, b, p);
      }
    }
  }

  /** The first fix of the GNSS block, Data Mask bit 3, has this number at a bit of its own. */
  ghost predicate FirstFixHas(entries: seq<Entry>, bit: nat, n: int) {
    exists mask, fixes: seq<Value> ::
      Has(entries, 3, Records(mask, fixes)) && fixes != [] && fixes[0].Fields? && Has(fixes[0].entries, bit, Num(n))
  }

  /** A column holds a number exactly if the decoded report says so; otherwise the report leaves it alone. */
  ghost predicate IsNumber(c: Option<Cell>, says: int -> bool) {
    && (c.Some? ==> c.value.Number?)
    && forall n :: c == Some(Number(n)) <==> says(n)
  }

  /** The two items of the battery field, Data Mask bit 2. */
  ghost predicate VoltageIs(entries: seq<Entry>, mv: int) {
    exists level :: Has(entries, 2, Items([Num(mv), Num(level)]))
  }

  ghost predicate LevelIs(entries: seq<Entry>, level: int) {
    exists mv :: Has(entries, 2, Items([Num(mv), Num(level)]))
  }

  ghost predicate ColumnsAre(r: Report, entries: seq<Entry>) {
    && IsNumber(CarriedValue(r, LastNetworkType), n => Has(entries, 1, Num(n)))
    && IsNumber(CarriedValue(r, LastBatteryVoltageMv), n => VoltageIs(entries, n))
    && IsNumber(CarriedValue(r, LastBatteryLevelPercent), n => LevelIs(entries, n))
    && IsNumber(CarriedValue(r, LastSpeedKmh), n => FirstFixHas(entries, 2, n))
    && IsNumber(CarriedValue(r, LastAltitudeM), n => FirstFixHas(entries, 4, n))
    && IsNumber(CarriedValue(r, LastLatitude), n => FirstFixHas(entries, 5, n))
    && IsNumber(CarriedValue(r, LastLongitude), n => FirstFixHas(entries, 6, n))
  }

  lemma NetworkColumn(r: Report, entries: seq<Entry>)
    requires OncePerBit(entries) && r.networkType == NumberOf(Find(entries, 1))
    ensures IsNumber(CarriedValue(r, LastNetworkType), n => Has(entries, 1, Num(n)))
  {
    FindsTheBit(entries, 1);
  }

  lemma BatteryColumns(r: Report, entries: seq<Entry>)
    requires OncePerBit(entries) && r.battery == BatteryOf(Find(entries, 2))
    ensures IsNumber(CarriedValue(r, LastBatteryVoltageMv), n => VoltageIs(entries, n))
    ensures IsNumber(CarriedValue(r, LastBatteryLevelPercent), n => LevelIs(entries, n))
  {
    forall n
      ensures VoltageIs(entries, n) <==> r.battery.Some? && r.battery.value.voltageMv == n
      ensures LevelIs(entries, n) <==> r.battery.Some? && r.battery.value.levelPercent == n
    {
      BatteryNumbers(r.battery, entries, n);
    }
  }

  lemma BatteryNumbers(battery: Option<Battery>, entries: seq<Entry>, n: int)
    requires OncePerBit(entries) && battery == BatteryOf(Find(entries, 2))
    ensures VoltageIs(entries, n) <==> battery.Some? && battery.value.voltageMv == n
    ensures LevelIs(entries, n) <==> battery.Some? && battery.value.levelPercent == n
  {
    forall mv, level
      ensures Has(entries, 2, Items([Num(mv), Num(level)])) <==> battery == Some(Battery(level, mv))
    {
      FindsTheBit(entries, 2);
      BatteryIs(Find(entries, 2), mv, level);
    }
    if battery.Some? {
      assert Has(entries, 2, Items([Num(battery.value.voltageMv), Num(battery.value.levelPercent)]));
    }
  }

  lemma BatteryIs(found: Option<Value>, mv: int, level: int)
    ensures BatteryOf(found) == Some(Battery(level, mv)) <==> found == Some(Items([Num(mv), Num(level)]))
  {
    if found.Some? && found.value.Items? && |found.value.values| == 2 {
      var vs := found.value.values;
      assert vs == [vs[0], vs[1]];
    }
  }

  /** One number of the first fix. */
  lemma FixColumn(entries: seq<Entry>, bit: nat, n: int)
    requires Decoded(entries)
    ensures FirstFixHas(entries, bit, n) <==>
            var v := Find(entries, 3);
            && v.Some? && v.value.Records? && v.value.records != [] && v.value.records[0].Fields?
            && NumberOf(Find(v.value.records[0].entries, bit)) == Some(n)
  {
    FindsTheBit(entries, 3);
    var v := Find(entries, 3);
    if v.Some? && v.value.Records? && v.value.records != [] {
      assert Entry(3, v.value) in entries;
      assert v.value.records[0] in v.value.records;
      var fix := v.value.records[0].entries;
      FindsTheBit(fix, bit);
      assert NumberOf(Find(fix, bit)) == Some(n) <==> Find(fix, bit) == Some(Num(n));
      assert v.value == Records(v.value.mask, v.value.records);
    }
  }

  lemma SpeedColumn(r: Report, entries: seq<Entry>)
    requires Decoded(entries) && r.primaryFix == PrimaryFix(Find(entries, 3))
    ensures IsNumber(CarriedValue(r, LastSpeedKmh), n => FirstFixHas(entries, 2, n))
  {
    forall n
      ensures FirstFixHas(entries, 2, n) <==> CarriedValue(r, LastSpeedKmh) == Some(Number(n))
    {
      FixColumn(entries, 2, n);
    }
  }

  lemma AltitudeColumn(r: Report, entries: seq<Entry>)
    requires Decoded(entries) && r.primaryFix == PrimaryFix(Find(entries, 3))
    ensures IsNumber(CarriedValue(r, LastAltitudeM), n => FirstFixHas(entries, 4, n))
  {
    forall n
      ensures FirstFixHas(entries, 4, n) <==> CarriedValue(r, LastAltitudeM) == Some(Number(n))
    {
      FixColumn(entries, 4, n);
    }
  }

  lemma LatitudeColumn(r: Report, entries: seq<Entry>)
    requires Decoded(entries) && r.primaryFix == PrimaryFix(Find(entries, 3))
    ensures IsNumber(CarriedValue(r, LastLatitude), n => FirstFixHas(entries, 5, n))
  {
    forall n
      ensures FirstFixHas(entries, 5, n) <==> CarriedValue(r, LastLatitude) == Some(Number(n))
    {
      FixColumn(entries, 5, n);
    }
  }

  lemma LongitudeColumn(r: Report, entries: seq<Entry>)
    requires Decoded(entries) && r.primaryFix == PrimaryFix(Find(entries, 3))
    ensures IsNumber(CarriedValue(r, LastLongitude), n => FirstFixHas(entries, 6, n))
  {
    forall n
      ensures FirstFixHas(entries, 6, n) <==> CarriedValue(r, LastLongitude) == Some(Number(n))
    {
      FixColumn(entries, 6, n);
    }
  }

  lemma ColumnsOf(r: Report, header: FrameParser.Header, kind: FrameParser.Kind, eventType: int,
                  entries: seq<Entry>, now: Time)
    requires Decoded(entries) && r == ReportOf(header, kind, eventType, entries, now)
    ensures ColumnsAre(r, entries) && r.imei == header.imei && r.savedAt == now
    ensures CarriedValue(r, LastReportAt) ==
            Some(if header.generatedAt.Some? then Generated(header.generatedAt.value) else At(now))
    ensures CarriedValue(r, LastFrameKind) == Some(OfKind(kind))
    ensures CarriedValue(r, LastEventType) == Some(Number(eventType))
    ensures CarriedValue(r, LastEventName) == Some(NameOf(eventType))
  {
    NetworkColumn(r, entries);
    BatteryColumns(r, entries);
    SpeedColumn(r, entries);
    AltitudeColumn(r, entries);
    LatitudeColumn(r, entries);
    LongitudeColumn(r, entries);
  }

  /**
   * Where a report's snapshot comes from, for every data zone, cut or not. Network type is Data Mask bit
   * 1; battery voltage and level are the two items of bit 2; speed, altitude, latitude and longitude are
   * bits 2, 4, 5 and 6 of the first fix of bit 3; each is carried exactly if it was decoded. Event type
   * is the third byte of the zone; the report time is the frame's, or else the clock's.
   */
  lemma SnapshotSource(number: AsciiZone.Numbers, zone: Buffer, parsed: FrameParser.ParsedFrame, now: Time)
    returns (r: Report, entries: seq<Entry>)
    requires FrameParser.IsReport(parsed.kind) && |zone| >= 8
    requires parsed.body == FrameParser.ParseBody(number, parsed.kind, zone).0
    ensures ReportIn(parsed, now) == Some(r) && r.imei == parsed.header.imei && r.savedAt == now
    ensures parsed.body.Report? && parsed.body.value.Items? && |parsed.body.value.values| == 4
    ensures parsed.body.value.values[3].Fields? && parsed.body.value.values[3].entries == entries
    ensures ColumnsAre(r, entries)
    ensures CarriedValue(r, LastReportAt) ==
            Some(if parsed.header.generatedAt.Some? then Generated(parsed.header.generatedAt.value) else At(now))
    ensures CarriedValue(r, LastFrameKind) == Some(OfKind(parsed.kind))
    ensures CarriedValue(r, LastEventType) == Some(Number(zone[2] as int))
    ensures CarriedValue(r, LastEventName) == Some(NameOf(zone[2] as int))
  {
    r, entries := ReportIs(number, zone, parsed, now);
    ColumnsOf(r, parsed.header, parsed.kind, zone[2] as int, entries, now);
  }

  lemma ReportIs(number: AsciiZone.Numbers, zone: Buffer, parsed: FrameParser.ParsedFrame, now: Time)
    returns (r: Report, entries: seq<Entry>)
    requires FrameParser.IsReport(parsed.kind) && |zone| >= 8
    requires parsed.body == FrameParser.ParseBody(number, parsed.kind, zone).0
    ensures ReportIn(parsed, now) == Some(r) && Decoded(entries)
    ensures r == ReportOf(parsed.header, parsed.kind, zone[2] as int, entries, now)
    ensures parsed.body.Report? && parsed.body.value.Items? && |parsed.body.value.values| == 4
    ensures parsed.body.value.values[3].Fields? && parsed.body.value.values[3].entries == entries
  {
    ReportInZone(number, zone, parsed, now);
    entries := ZoneEntries(number, zone, parsed);
    assert UIntAt(zone, 2, 0) == 0;
    r := ReportOf(parsed.header, parsed.kind, zone[2] as int, entries, now);
  }

  /** The decoded fields of a report zone, each bit at most once. */
  lemma ZoneEntries(number: AsciiZone.Numbers, zone: Buffer, parsed: FrameParser.ParsedFrame)
    returns (entries: seq<Entry>)
    requires FrameParser.IsReport(parsed.kind) && |zone| >= 8
    requires parsed.body == FrameParser.ParseBody(number, parsed.kind, zone).0
    ensures entries == ScanReport(MaskOf(zone), 0, zone, HEADER_BYTES).entries
    ensures parsed.body.Report? && parsed.body.value.Items? && |parsed.body.value.values| == 4
    ensures parsed.body.value.values[3].Fields? && parsed.body.value.values[3].entries == entries
    ensures Decoded(entries)
  {
    ReportUnfolds(ReportRules(), zone);
    entries := ScanReport(MaskOf(zone), 0, zone, HEADER_BYTES).entries;
    EntriesOnce(ReportRules(), MaskOf(zone), zone);
  }

  lemma EntriesOnce(rules: seq<Rule>, mask: nat, zone: Buffer)
    requires rules == ReportRules() && |zone| >= 8
    ensures var entries := DecodeBits(rules, mask, 0, zone, 8).entries;
            Decoded(entries)
  {
    assert rules[3] == ReportRule(3);
    ScansOnce(rules, mask, 0, zone, 8);
    FixesScannedOnce(rules, mask, 0, zone, 8);
  }
}
