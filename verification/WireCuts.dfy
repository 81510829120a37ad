/** Lists that are cut, byte for byte: complete 1-wire sensors are kept, trouble codes and tyres are not. */
module WireCuts {
  import opened Bytes
  import opened Wrappers
  import opened Schema
  import opened Truncation
  import opened ReportLayout
  import opened WireFormat
  import opened WireReports

  // ------------------------------------------------------------------
  // Masks with a single bit
  // ------------------------------------------------------------------

  lemma {:induction false} SingleBit(k: nat, i: nat)
    ensures Bit(Pow2(k), i) <==> i == k
  {
    if k > 0 && i > 0 {
      SingleBit(k - 1, i - 1);
    } else if i > 0 {
      NoBit(i - 1);
    }
  }

  lemma {:induction false} NoBit(i: nat)
    ensures !Bit(0, i)
  {
    if i > 0 {
      NoBit(i - 1);
    }
  }

  lemma {:induction false} SkipsTo(rules: seq<Rule>, k: nat, from: nat, until: nat, b: Buffer, p: nat)
    requires from <= until <= |rules| && p <= |b| && (until <= k || k < from)
    ensures DecodeBits(rules, Pow2(k), from, b, p) == DecodeBits(rules, Pow2(k), until, b, p)
    decreases until - from
  {
    if from < until {
      SingleBit(k, from);
      SkipsTo(rules, k, from + 1, until, b, p);
    }
  }

  /** The scan of a mask with one bit is the read of its field. */
  lemma SingleField(rules: seq<Rule>, k: nat, b: Buffer, p: nat)
    requires k < |rules| && rules[k].Field? && p <= |b|
    ensures DecodeBits(rules, Pow2(k), 0, b, p) ==
            match Decode(rules[k].shape, b, p)
            case Good(v, q, ws) => Scan([Entry(k, v)], [], None, q, ws)
            case Cut(partial, q, ws) => Scan(Kept(k, partial), [], Some(k), q, ws)
  {
    SingleBit(k, k);
    SkipsTo(rules, k, 0, k, b, p);
    var d := Decode(rules[k].shape, b, p);
    SkipsTo(rules, k, k + 1, |rules|, b, d.pos);
    if d.Good? {
      assert [Entry(k, d.value)] + [] == [Entry(k, d.value)] && d.warnings + [] == d.warnings;
    }
  }

  /** A block with one field that is cut. */
  lemma CutBlock(kind: BlockKind, rules: seq<Rule>, i: nat, b: Buffer, p: nat, partial: Option<Value>, q: nat)
    requires p + 4 <= |b| && UIntAt(b, p, 4) == Pow2(i) && i < |rules| && rules[i].Field?
    requires Decode(rules[i].shape, b, p + 4) == Cut(partial, q, [])
    ensures Decode(Block(kind, rules), b, p) == Good(Fields(Pow2(i), Kept(i, partial), []), q, [Stopped(kind, i)])
  {
    SingleField(rules, i, b, p + 4);
    assert [] + [Stopped(kind, i)] == [Stopped(kind, i)];
  }

  /** A report with one such block. */
  lemma CutReport(rules: seq<Rule>, o: nat, kind: BlockKind, inner: seq<Rule>, i: nat, zone: Buffer,
                  partial: Option<Value>, q: nat)
    requires |zone| >= 12 && UIntAt(zone, 4, 4) == Pow2(o) && UIntAt(zone, 8, 4) == Pow2(i)
    requires o < |rules| && rules[o].Field? && rules[o].shape == Block(kind, inner)
    requires i < |inner| && inner[i].Field? && Decode(inner[i].shape, zone, 12) == Cut(partial, q, [])
    ensures var d := Decode(Tuple([Raw(2), U8, U8, Block(DataMask, rules)]), zone, 0);
            && d.Good? && d.warnings == [Stopped(kind, i)]
            && d.value == Items([Bytes(zone[0..2]), Num(UIntAt(zone, 2, 1)), Num(UIntAt(zone, 3, 1)),
                                 Fields(Pow2(o), [Entry(o, Fields(Pow2(i), Kept(i, partial), []))], [])])
  {
    CutBlock(kind, inner, i, zone, 8, partial, q);
    SingleField(rules, o, zone, 8);
    ReportUnfolds(rules, zone);
    assert [Stopped(kind, i)] + [] == [Stopped(kind, i)];
  }

  // ------------------------------------------------------------------
  // Lists
  // ------------------------------------------------------------------

  lemma FirstItemCut(item: Shape, n: nat, b: Buffer, p: nat, k: nat)
    requires Plain(item) && n > 0 && p <= k <= |b| && Decode(item, b, p).pos > k
    ensures var d := DecodeList(item, n, b[..k], p); !d.done && d.values == [] && d.warnings == []
  {
    Straddle(item, b, p, k);
    PlainQuiet(item, b[..k], p);
  }

  lemma FirstItemKept(item: Shape, n: nat, b: Buffer, p: nat, k: nat, v: Value, q: nat)
    requires n > 0 && p <= k <= |b| && q <= k && Decode(item, b, p) == Good(v, q, [])
    ensures var d, more := DecodeList(item, n, b[..k], p), DecodeList(item, n - 1, b[..k], q);
            d.done == more.done && d.values == [v] + more.values && d.warnings == more.warnings
  {
    Lockstep(item, b, p, k);
  }

  lemma FirstSensor(s: Sensor, more: seq<Sensor>)
    ensures ([s] + more)[..0] == [] && SensorBytes(([s] + more)[..1]) == SensorPart(s)
  {
    assert ([s] + more)[..1] == [s] + [];
    SensorCons(s, []);
  }

  lemma SensorsUpTo(s: Sensor, more: seq<Sensor>, i: nat)
    requires i <= |more|
    ensures SensorBytes(([s] + more)[..i + 1]) == SensorPart(s) + SensorBytes(more[..i])
    ensures SensorValues(([s] + more)[..i + 1]) == [SensorValue(s)] + SensorValues(more[..i])
  {
    assert ([s] + more)[..i + 1] == [s] + more[..i];
    SensorCons(s, more[..i]);
  }

  /** Sensors wholly in front of the cut are read, and the next one fails. */
  lemma {:induction false} SensorListCut(tables: Tables, rules: seq<Rule>, sensors: seq<Sensor>, b: Buffer, p: nat,
                                         k: nat)
    returns (j: nat)
    requires AllAgree(tables) && Agrees(SensorBits, rules, tables) && Plain(Tuple([Raw(8), Flags(1, rules)]))
    requires (forall s :: s in sensors ==> IsSensor(s)) && Lies(b, p, SensorBytes(sensors))
    requires p <= k < p + |SensorBytes(sensors)| && k <= |b|
    ensures j < |sensors| && p + |SensorBytes(sensors[..j])| <= k < p + |SensorBytes(sensors[..j + 1])|
    ensures var d := DecodeList(Tuple([Raw(8), Flags(1, rules)]), |sensors|, b[..k], p);
            !d.done && d.values == SensorValues(sensors[..j]) && d.warnings == []
    decreases |sensors|
  {
    var item := Tuple([Raw(8), Flags(1, rules)]);
    var s, more, q := SensorHere(tables, rules, sensors, b, p);
    if q > k {
      FirstItemCut(item, |sensors|, b, p, k);
      j := 0;
      FirstSensor(s, more);
    } else {
      var i := SensorListCut(tables, rules, more, b, q, k);
      j := i + 1;
      FirstItemKept(item, |sensors|, b, p, k, SensorValue(s), q);
      SensorsUpTo(s, more, i);
      SensorsUpTo(s, more, j);
    }
  }

  lemma SensorTable() returns (tables: Tables, rules: seq<Rule>)
    ensures AllAgree(tables) && Agrees(SensorBits, rules, tables)
    ensures OneWireReading() == Tuple([Raw(8), Flags(1, rules)]) && Plain(Tuple([Raw(8), Flags(1, rules)]))
  {
    TablesAgree();
    tables, rules := RulesIn, RulesIn(SensorBits);
    assert Agrees(SensorBits, RulesIn(SensorBits), RulesIn);
  }

  /** A count byte and a list that is cut. */
  lemma CutCounted(item: Shape, keeps: bool, n: nat, b: Buffer, p: nat, d: Many)
    requires p < |b| && b[p] as nat == n && d == DecodeList(item, n, b, p + 1) && !d.done && d.warnings == []
    ensures Decode(Counted(item, keeps), b, p) == Cut(if keeps then Some(Items(d.values)) else None, d.pos, [])
  {}

  lemma Powers()
    ensures Pow2(8) == 256 && Pow2(9) == 512 && Pow2(10) == 1024 && Pow2(24) == 16777216 && Pow2(29) == 536870912
  {
    assert Pow2(4) == 16;
    assert Pow2(5) == 2 * Pow2(4);
    PowerSum(4, 4);
    assert Pow2(9) == 2 * Pow2(8);
    assert Pow2(10) == 2 * Pow2(9);
    PowerSum(8, 8);
    PowerSum(16, 8);
    PowerSum(24, 5);
  }

  lemma {:induction false} PowerSum(m: nat, n: nat)
    ensures Pow2(m + n) == Pow2(m) * Pow2(n)
  {
    if n > 0 {
      PowerSum(m, n - 1);
    }
  }

  /** The masks of a zone with one block, and one field in it. */
  lemma Masks(b: Buffer, outer: Buffer, word: Buffer)
    requires |outer| == 4 && |word| == 4 && Lies(b, 4, outer) && Lies(b, 8, word)
    ensures |b| >= 12 && UIntAt(b, 4, 4) == W4(outer, 0) && UIntAt(b, 8, 4) == W4(word, 0)
  {
    WordsHeld(b, 4, outer, 0);
    WordsHeld(b, 8, word, 0);
    WordReads(b, 4);
    WordReads(b, 8);
  }

  /** Version, event type and state, Data Mask, block mask, field. */
  function OneFieldZone(version: Buffer, eventType: Byte, eventState: Byte, outer: Buffer, word: Buffer, e: Buffer)
    : Buffer
  {
    version + [eventType, eventState] + outer + word + e
  }

  lemma OneFieldZoneLies(version: Buffer, eventType: Byte, eventState: Byte, outer: Buffer, word: Buffer, e: Buffer,
                         k: nat)
    requires |version| == 2 && |outer| == 4 && |word| == 4
    requires 12 <= k <= 12 + |e|
    ensures var zone := OneFieldZone(version, eventType, eventState, outer, word, e);
            && |zone| == 12 + |e| && Lies(zone, 12, e)
            && zone[..k][0..2] == version
            && UIntAt(zone[..k], 2, 1) == eventType as nat && UIntAt(zone[..k], 3, 1) == eventState as nat
            && UIntAt(zone[..k], 4, 4) == W4(outer, 0) && UIntAt(zone[..k], 8, 4) == W4(word, 0)
  {
    var zone := OneFieldZone(version, eventType, eventState, outer, word, e);
    Masks(zone[..k], outer, word);
    WordReads(zone[..k], 2);
    WordReads(zone[..k], 3);
  }

  lemma EventBlock() returns (rules: seq<Rule>, inner: seq<Rule>)
    ensures ReportShape() == Tuple([Raw(2), U8, U8, Block(DataMask, rules)]) && |rules| == 32 && |inner| == 32
    ensures rules[8].Field? && rules[8].shape == Block(EventDataMask, inner)
    ensures inner[9].Field? && inner[9].shape == Counted(OneWireReading(), true)
  {
    rules, inner := ReportRules(), EventDataRules();
    assert rules[8] == ReportRule(8) && inner[9] == EventDataRule(9);
  }

  /**
   * A zone with an event block of 1-wire sensors only, cut anywhere behind their number: exactly the
   * sensors wholly in front of the cut are decoded, and the block's loop says that it stopped.
   */
  lemma SensorsCut(version: Buffer, eventType: Byte, eventState: Byte, sensors: seq<Sensor>, k: nat) returns (j: nat)
    requires |version| == 2 && |sensors| < 256 && forall s :: s in sensors ==> IsSensor(s)
    requires 13 <= k < 13 + |SensorBytes(sensors)|
    ensures j < |sensors| && 13 + |SensorBytes(sensors[..j])| <= k < 13 + |SensorBytes(sensors[..j + 1])|
    ensures var e := [|sensors| as Byte] + SensorBytes(sensors);
            var zone := OneFieldZone(version, eventType, eventState, [0, 0, 1, 0], [0, 0, 2, 0], e);
            var d := Decode(ReportShape(), zone[..k], 0);
            && d.Good? && d.warnings == [Stopped(EventDataMask, 9)]
            && d.value ==
               Items([Bytes(version), Num(eventType as int), Num(eventState as int),
                      Fields(256, [Entry(8, Fields(512, [Entry(9, Items(SensorValues(sensors[..j])))], []))], [])])
  {
    var e := [|sensors| as Byte] + SensorBytes(sensors);
    var zone := OneFieldZone(version, eventType, eventState, [0, 0, 1, 0], [0, 0, 2, 0], e);
    OneFieldZoneLies(version, eventType, eventState, [0, 0, 1, 0], [0, 0, 2, 0], e, k);
    var q;
    j, q := SensorsFieldCut(sensors, e, zone, k);
    Powers();
    var rules, inner := EventBlock();
    CutReport(rules, 8, EventDataMask, inner, 9, zone[..k], Some(Items(SensorValues(sensors[..j]))), q);
  }

  lemma SensorsFieldCut(sensors: seq<Sensor>, e: Buffer, zone: Buffer, k: nat) returns (j: nat, q: nat)
    requires |sensors| < 256 && (forall s :: s in sensors ==> IsSensor(s))
    requires e == [|sensors| as Byte] + SensorBytes(sensors) && Lies(zone, 12, e)
    requires 13 <= k < 12 + |e| && k <= |zone|
    ensures j < |sensors| && 13 + |SensorBytes(sensors[..j])| <= k < 13 + |SensorBytes(sensors[..j + 1])|
    ensures Decode(Counted(OneWireReading(), true), zone[..k], 12) ==
            Cut(Some(Items(SensorValues(sensors[..j]))), q, [])
  {
    var tables, rules := SensorTable();
    LiesByte(zone, 12, |sensors| as Byte, SensorBytes(sensors));
    j := SensorListCut(tables, rules, sensors, zone, 13, k);
    var d := DecodeList(OneWireReading(), |sensors|, zone[..k], 13);
    CutCounted(OneWireReading(), true, |sensors|, zone[..k], 12, d);
    q := d.pos;
  }

  lemma CanBlock() returns (rules: seq<Rule>, inner: seq<Rule>)
    ensures ReportShape() == Tuple([Raw(2), U8, U8, Block(DataMask, rules)]) && |rules| == 32 && |inner| == 32
    ensures rules[10].Field? && rules[10].shape == Block(CanInfoMask2, inner)
    ensures inner[24].Field? && inner[24].shape == Counted(Raw(3), false)
    ensures inner[29].Field? && inner[29].shape == Counted(Tuple([U8, U16, U24, U8]), false)
  {
    rules, inner := ReportRules(), CanInfo2Rules();
    assert rules[10] == ReportRule(10) && inner[24] == CanInfo2Rule(24) && inner[29] == CanInfo2Rule(29);
  }

  /** A list that keeps nothing of what is cut. */
  lemma DroppedList(item: Shape, b: Buffer, p: nat, k: nat) returns (q: nat)
    requires Plain(item) && p <= k <= |b| && Decode(Counted(item, false), b, p).pos > k
    ensures Decode(Counted(item, false), b[..k], p) == Cut(None, q, [])
  {
    Straddle(Counted(item, false), b, p, k);
    PlainQuiet(Counted(item, false), b[..k], p);
    q := Decode(Counted(item, false), b[..k], p).pos;
  }

  /** A zone with a CAN Info 2 block of trouble codes or of tyres only, cut anywhere in the list: none is kept. */
  lemma CodesCut(version: Buffer, eventType: Byte, eventState: Byte, e: Buffer, v: Value, k: nat)
    requires |version| == 2 && 12 <= k < 12 + |e|
    ensures TroubleCodesMean(e, v) ==> NothingKept(version, eventType, eventState, [1, 0, 0, 0], 24, e, k)
    ensures TyresMean(e, v) ==> NothingKept(version, eventType, eventState, [0x20, 0, 0, 0], 29, e, k)
  {
    Powers();
    if TroubleCodesMean(e, v) {
      TroubleCodesCut(version, eventType, eventState, e, v, k);
    }
    if TyresMean(e, v) {
      TyresCut(version, eventType, eventState, e, v, k);
    }
  }

  ghost predicate NothingKept(version: Buffer, eventType: Byte, eventState: Byte, word: Buffer, bit: nat, e: Buffer,
                              k: nat)
    requires |version| == 2 && |word| == 4
  {
    var zone := OneFieldZone(version, eventType, eventState, [0, 0, 4, 0], word, e);
    k <= |zone| &&
    var d := Decode(ReportShape(), zone[..k], 0);
    && d.Good? && d.warnings == [Stopped(CanInfoMask2, bit)]
    && d.value == Items([Bytes(version), Num(eventType as int), Num(eventState as int),
                         Fields(1024, [Entry(10, Fields(W4(word, 0), [], []))], [])])
  }

  lemma TroubleCodesCut(version: Buffer, eventType: Byte, eventState: Byte, e: Buffer, v: Value, k: nat)
    requires |version| == 2 && 12 <= k < 12 + |e| && TroubleCodesMean(e, v)
    ensures NothingKept(version, eventType, eventState, [1, 0, 0, 0], 24, e, k)
  {
    var zone := OneFieldZone(version, eventType, eventState, [0, 0, 4, 0], [1, 0, 0, 0], e);
    OneFieldZoneLies(version, eventType, eventState, [0, 0, 4, 0], [1, 0, 0, 0], e, k);
    TroubleCodesRead(e, v, zone, 12);
    var q := DroppedList(Raw(3), zone, 12, k);
    Powers();
    var rules, inner := CanBlock();
    CutReport(rules, 10, CanInfoMask2, inner, 24, zone[..k], None, q);
  }

  lemma TyreListCut(e: Buffer, v: Value, zone: Buffer, k: nat) returns (q: nat)
    requires TyresMean(e, v) && Lies(zone, 12, e) && 12 <= k < 12 + |e|
    ensures Decode(Counted(Tuple([U8, U16, U24, U8]), false), zone[..k], 12) == Cut(None, q, [])
  {
    TyresRead(RulesIn, Tuple([U8, U16, U24, U8]), e, v, zone, 12);
    q := DroppedList(Tuple([U8, U16, U24, U8]), zone, 12, k);
  }

  lemma TyresCut(version: Buffer, eventType: Byte, eventState: Byte, e: Buffer, v: Value, k: nat)
    requires |version| == 2 && 12 <= k < 12 + |e| && TyresMean(e, v)
    ensures NothingKept(version, eventType, eventState, [0x20, 0, 0, 0], 29, e, k)
  {
    var zone := OneFieldZone(version, eventType, eventState, [0, 0, 4, 0], [0x20, 0, 0, 0], e);
    OneFieldZoneLies(version, eventType, eventState, [0, 0, 4, 0], [0x20, 0, 0, 0], e, k);
    var q := TyreListCut(e, v, zone, k);
    Powers();
    var rules, inner := CanBlock();
    CutReport(rules, 10, CanInfoMask2, inner, 29, zone[..k], None, q);
  }
}
