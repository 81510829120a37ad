/**
 * Reading one field of a report through the cursor, whatever its shape, and the
 * step a mask loop takes with it. Each method is proved to refine the schema
 * semantics of the shape it reads.
 */
module FieldReader {
  import opened Bytes
  import opened Wrappers
  import opened BufferCursors
  import opened Schema
  import opened Truncation
  import opened ReportLayout

  // ------------------------------------------------------------------
  // The mask loop, one bit at a time
  // ------------------------------------------------------------------

  /** One iteration of a mask loop, after `s`. */
  function StepBit(rules: seq<Rule>, mask: nat, bit: nat, b: Buffer, s: Scan): (r: Scan)
    requires bit < |rules| && s.pos <= |b|
    ensures s.pos <= r.pos <= |b|
  {
    if !Bit(mask, bit) then s
    else
      match rules[bit]
      case Reserved => s
      case Unsupported => s.(unsupported := s.unsupported + [bit])
      case Field(_, shape) =>
        match Decode(shape, b, s.pos)
        case Good(v, q, ws) => s.(entries := s.entries + [Entry(bit, v)], pos := q, warnings := s.warnings + ws)
        case Cut(partial, q, ws) =>
          s.(entries := s.entries + Kept(bit, partial), stop := Some(bit), pos := q, warnings := s.warnings + ws)
  }

  /** Nothing scanned yet. */
  function Start(p: nat): Scan {
    Scan([], [], None, p, [])
  }

  /** A loop that has come as far as `s` before bit `bit`. */
  ghost predicate Resumes(rules: seq<Rule>, mask: nat, bit: nat, b: Buffer, p: nat, s: Scan) {
    && p <= |b| && s.pos <= |b| && bit <= |rules| && s.stop.None?
    && var r := DecodeBits(rules, mask, bit, b, s.pos);
       DecodeBits(rules, mask, 0, b, p) ==
       Scan(s.entries + r.entries, s.unsupported + r.unsupported, r.stop, r.pos, s.warnings + r.warnings)
  }

  lemma Starts(rules: seq<Rule>, mask: nat, b: Buffer, p: nat)
    requires p <= |b|
    ensures Resumes(rules, mask, 0, b, p, Start(p))
  {
    var r := DecodeBits(rules, mask, 0, b, p);
    assert [] + r.entries == r.entries && [] + r.unsupported == r.unsupported && [] + r.warnings == r.warnings;
  }

  lemma Steps(rules: seq<Rule>, mask: nat, bit: nat, b: Buffer, p: nat, s: Scan)
    requires bit < |rules| && Resumes(rules, mask, bit, b, p, s)
    ensures var t := StepBit(rules, mask, bit, b, s);
            if t.stop.None? then Resumes(rules, mask, bit + 1, b, p, t) else DecodeBits(rules, mask, 0, b, p) == t
  {
    var t := StepBit(rules, mask, bit, b, s);
    assert s.unsupported + [] == s.unsupported;
    if Bit(mask, bit) && !rules[bit].Reserved? && t.stop.None? {
      var r := DecodeBits(rules, mask, bit + 1, b, t.pos);
      if rules[bit].Unsupported? {
        Assoc(s.unsupported, [bit], r.unsupported);
      } else {
        var d := Decode(rules[bit].shape, b, s.pos);
        Assoc(s.entries, [Entry(bit, d.value)], r.entries);
        Assoc(s.warnings, d.warnings, r.warnings);
      }
    }
  }

  lemma Finishes(rules: seq<Rule>, mask: nat, b: Buffer, p: nat, s: Scan)
    requires Resumes(rules, mask, |rules|, b, p, s)
    ensures DecodeBits(rules, mask, 0, b, p) == s
  {
    assert s.entries + [] == s.entries && s.unsupported + [] == s.unsupported && s.warnings + [] == s.warnings;
  }

  // ------------------------------------------------------------------
  // Reading one field
  // ------------------------------------------------------------------

  /** What one `case` of a mask loop did: stored a value, nothing (reserved), fell to `default`, or threw. */
  datatype FieldRead = Stored(value: Value) | Nothing | Unknown | Threw(partial: Option<Value>)

  ghost predicate Reads(shape: Shape, b: Buffer, p: nat, o: FieldRead, after: nat)
    requires p <= |b|
  {
    match Decode(shape, b, p)
    case Good(v, q, _) => o == Stored(v) && after == q
    case Cut(partial, q, _) => o == Threw(partial) && after == q
  }

  ghost predicate Does(rule: Rule, b: Buffer, p: nat, o: FieldRead, after: nat)
    requires p <= |b|
  {
    match rule
    case Reserved => o.Nothing? && after == p
    case Unsupported => o.Unknown? && after == p
    case Field(_, shape) => Reads(shape, b, p, o, after)
  }

  method ReadNumber(cursor: BufferCursor, width: nat) returns (o: FieldRead)
    requires cursor.Valid()
    modifies cursor`offset
    ensures cursor.Valid() && Reads(UInt(width), cursor.buf, old(cursor.offset), o, cursor.offset)
  {
    var r := cursor.ReadUInt(width);
    o := if r.Success? then Stored(Num(r.value)) else Threw(None);
  }

  method ReadSigned(cursor: BufferCursor, width: nat) returns (o: FieldRead)
    requires cursor.Valid()
    modifies cursor`offset
    ensures cursor.Valid() && Reads(SInt(width), cursor.buf, old(cursor.offset), o, cursor.offset)
  {
    var r := cursor.ReadInt(width);
    o := if r.Success? then Stored(Num(r.value)) else Threw(None);
  }

  /** A length byte and that many bytes; `readLengthPrefixedAscii` when `ascii`. */
  method ReadPrefixed(cursor: BufferCursor, ascii: bool) returns (o: FieldRead)
    requires cursor.Valid()
    modifies cursor`offset
    ensures cursor.Valid()
    ensures Reads(if ascii then Ascii else Blob, cursor.buf, old(cursor.offset), o, cursor.offset)
  {
    var length := cursor.ReadUInt(1);
    LoneByte(cursor.buf, old(cursor.offset));
    if length.Failure? {
      return Threw(None);
    }
    var bytes := cursor.ReadBytes(length.value);
    o := if bytes.Failure? then Threw(None) else Stored(Bytes(if ascii then AsciiOf(bytes.value) else bytes.value));
  }

  lemma LoneByte(b: Buffer, p: nat)
    ensures p < |b| ==> UIntAt(b, p, 1) == b[p] as nat
  {
    if p < |b| {
      assert UIntAt(b, p, 0) == 0;
    }
  }

  /** A run of reads that has produced `values` and still has `rest` to do. */
  ghost predicate Continues(whole: Many, values: seq<Value>, rest: Many) {
    whole.values == values + rest.values && whole.done == rest.done && whole.pos == rest.pos
  }

  /** Table-driven reads: numbers, raw bytes, prefixed bytes, and tuples and counted lists of them. */
  method ReadShape(cursor: BufferCursor, s: Shape) returns (o: FieldRead)
    requires cursor.Valid() && Simple(s)
    modifies cursor`offset
    ensures cursor.Valid() && Reads(s, cursor.buf, old(cursor.offset), o, cursor.offset)
    decreases s, 2, 0
  {
    match s
    case UInt(w) => o := ReadNumber(cursor, w);
    case SInt(w) => o := ReadSigned(cursor, w);
    case Raw(w) =>
      var r := cursor.ReadBytes(w);
      o := if r.Success? then Stored(Bytes(r.value)) else Threw(None);
    case Skip(w) =>
      var r := cursor.Skip(w);
      o := if r.Success? then Stored(Gap) else Threw(None);
    case Blob => o := ReadPrefixed(cursor, false);
    case Ascii => o := ReadPrefixed(cursor, true);
    case Tuple(items) =>
      var done, values := ReadTuple(cursor, items);
      o := if done then Stored(Items(values)) else Threw(None);
    case Counted(item, keeps) => o := ReadList(cursor, item, keeps);
  }

  method ReadTuple(cursor: BufferCursor, items: seq<Shape>) returns (done: bool, values: seq<Value>)
    requires cursor.Valid() && forall x :: x in items ==> Simple(x)
    modifies cursor`offset
    ensures cursor.Valid()
    ensures var r := DecodeAll(items, cursor.buf, old(cursor.offset));
            done == r.done && values == r.values && cursor.offset == r.pos
    decreases items, 0, 0
  {
    done, values := true, [];
    var i := 0;
    assert items[0..] == items;
    while i < |items|
      invariant i <= |items| && cursor.Valid()
      invariant Continues(DecodeAll(items, cursor.buf, old(cursor.offset)), values,
                          DecodeAll(items[i..], cursor.buf, cursor.offset))
    {
      assert items[i] in items && items[i..][1..] == items[i + 1..];
      var o := ReadShape(cursor, items[i]);
      if o.Threw? {
        done := false;
        assert values + [] == values;
        return;
      }
      AssocStored(values, o, DecodeAll(items[i + 1..], cursor.buf, cursor.offset).values);
      values := values + [o.value];
      i := i + 1;
    }
    assert values + [] == values;
  }

  lemma AssocStored(values: seq<Value>, o: FieldRead, more: seq<Value>)
    requires o.Stored?
    ensures (values + [o.value]) + more == values + ([o.value] + more)
  {}

  /** One more item of a counted list. */
  lemma NextItem(item: Shape, n: nat, i: nat, b: Buffer, start: nat, values: seq<Value>, p: nat, o: FieldRead,
                 after: nat)
    requires start <= |b| && p <= |b| && i < n
    requires Continues(DecodeList(item, n, b, start), values, DecodeList(item, n - i, b, p))
    requires Reads(item, b, p, o, after)
    ensures after <= |b|
    ensures o.Stored? ==>
              Continues(DecodeList(item, n, b, start), values + [o.value], DecodeList(item, n - i - 1, b, after))
    ensures o.Threw? ==> var d := DecodeList(item, n, b, start); !d.done && d.values == values && d.pos == after
  {
    if o.Stored? {
      AssocStored(values, o, DecodeList(item, n - i - 1, b, after).values);
    } else {
      assert values + [] == values;
    }
  }

  method ReadList(cursor: BufferCursor, item: Shape, keeps: bool) returns (o: FieldRead)
    requires cursor.Valid() && Simple(item)
    modifies cursor`offset
    ensures cursor.Valid() && Reads(Counted(item, keeps), cursor.buf, old(cursor.offset), o, cursor.offset)
    decreases item, 4, 0
  {
    ghost var start := cursor.offset;
    var count := cursor.ReadUInt(1);
    LoneByte(cursor.buf, start);
    if count.Failure? {
      return Threw(None);
    }
    var done, values := ReadItems(cursor, item, count.value);
    o := if done then Stored(Items(values)) else Threw(if keeps then Some(Items(values)) else None);
    CountedReads(item, keeps, cursor.buf, start, done, values, cursor.offset, o);
  }

  /** Reading a list, once its count byte and its items are read. */
  lemma CountedReads(item: Shape, keeps: bool, b: Buffer, p: nat, done: bool, values: seq<Value>, after: nat,
                     o: FieldRead)
    requires p < |b|
    requires var d := DecodeList(item, b[p] as nat, b, p + 1); done == d.done && values == d.values && after == d.pos
    requires o == if done then Stored(Items(values)) else Threw(if keeps then Some(Items(values)) else None)
    ensures Reads(Counted(item, keeps), b, p, o, after)
  {}

  method ReadItems(cursor: BufferCursor, item: Shape, count: nat) returns (done: bool, values: seq<Value>)
    requires cursor.Valid() && Simple(item)
    modifies cursor`offset
    ensures cursor.Valid()
    ensures var d := DecodeList(item, count, cursor.buf, old(cursor.offset));
            done == d.done && values == d.values && cursor.offset == d.pos
    decreases item, 3, 0
  {
    var i, start := 0, cursor.offset;
    done, values := true, [];
    while i < count
      invariant i <= count && cursor.Valid()
      invariant Continues(DecodeList(item, count, cursor.buf, start), values,
                          DecodeList(item, count - i, cursor.buf, cursor.offset))
    {
      ghost var at := cursor.offset;
      var r := ReadShape(cursor, item);
      NextItem(item, count, i, cursor.buf, start, values, at, r, cursor.offset);
      if r.Threw? {
        done := false;
        return;
      }
      values := values + [r.value];
      i := i + 1;
    }
    NoMore(DecodeList(item, count, cursor.buf, start), values, cursor.offset);
  }

  /** Nothing left to read. */
  lemma NoMore(whole: Many, values: seq<Value>, after: nat)
    requires Continues(whole, values, Many([], true, after, []))
    ensures whole.done && whole.values == values && whole.pos == after
  {}

  // ------------------------------------------------------------------
  // Straight-line flag reads: GNSS fixes, satellites, 1-wire readings
  // ------------------------------------------------------------------

  /** `if (mask & bit) field = cursor.read...()`; `s` and `t` are the scan before and after. */
  method ReadFlagged(cursor: BufferCursor, mask: nat, bit: nat, shape: Shape, ghost rules: seq<Rule>, ghost p: nat,
                     ghost s: Scan)
    returns (r: Result<seq<Entry>, Option<Value>>, ghost t: Scan)
    requires cursor.Valid() && cursor.offset == s.pos && Simple(shape)
    requires Resumes(rules, mask, bit, cursor.buf, p, s)
    requires bit < |rules| && rules[bit].Field? && rules[bit].shape == shape
    modifies cursor`offset
    ensures cursor.Valid() && cursor.offset == t.pos
    ensures r.Success? ==> Resumes(rules, mask, bit + 1, cursor.buf, p, t) && t.entries == s.entries + r.value
    ensures r.Failure? ==> DecodeBits(rules, mask, 0, cursor.buf, p) == t && t.stop.Some?
  {
    Steps(rules, mask, bit, cursor.buf, p, s);
    t := StepBit(rules, mask, bit, cursor.buf, s);
    if !Bit(mask, bit) {
      assert s.entries + [] == s.entries;
      return Success([]), t;
    }
    var o := ReadShape(cursor, shape);
    r := if o.Threw? then Failure(o.partial) else Success([Entry(bit, o.value)]);
  }

  /** The fields a mask announces have all been read, or a read has thrown. */
  ghost predicate MaskRead(rules: seq<Rule>, mask: nat, b: Buffer, p: nat, r: Result<seq<Entry>, Option<Value>>,
                           after: nat)
    requires p <= |b|
  {
    var d := DecodeBits(rules, mask, 0, b, p);
    && after == d.pos
    && (r.Success? ==> d.stop.None? && r.value == d.entries)
    && (r.Failure? ==> d.stop.Some?)
  }

  ghost predicate HasShape(rules: seq<Rule>, bit: nat, shape: Shape) {
    bit < |rules| && rules[bit].Field? && rules[bit].shape == shape
  }

  ghost predicate SatelliteLayout(rules: seq<Rule>) {
    |rules| == 4 && HasShape(rules, 0, U8) && HasShape(rules, 1, U8) && HasShape(rules, 2, U8) && HasShape(rules, 3, U8)
  }

  ghost predicate MotionLayout(rules: seq<Rule>) {
    && HasShape(rules, 0, U8) && HasShape(rules, 1, U8) && HasShape(rules, 2, U16) && HasShape(rules, 3, U16)
    && HasShape(rules, 4, I16)
  }

  ghost predicate PositionLayout(rules: seq<Rule>) {
    HasShape(rules, 5, I32) && HasShape(rules, 6, I32) && HasShape(rules, 7, Raw(7))
  }

  ghost predicate GnssLayout(rules: seq<Rule>, satellites: seq<Rule>) {
    && |rules| == 9 && MotionLayout(rules) && PositionLayout(rules)
    && HasShape(rules, 8, Flags(1, satellites)) && SatelliteLayout(satellites)
  }

  method ReadSatelliteCounts(cursor: BufferCursor, satMask: nat, ghost rules: seq<Rule>)
    returns (r: Result<seq<Entry>, Option<Value>>)
    requires cursor.Valid() && SatelliteLayout(rules)
    modifies cursor`offset
    ensures cursor.Valid() && MaskRead(rules, satMask, cursor.buf, old(cursor.offset), r, cursor.offset)
  {
    ghost var p, s := cursor.offset, Start(cursor.offset);
    Starts(rules, satMask, cursor.buf, p);
    var gps, beidou, galileo, glonass;
    gps, s :- ReadFlagged(cursor, satMask, 0, U8, rules, p, s);
    beidou, s :- ReadFlagged(cursor, satMask, 1, U8, rules, p, s);
    galileo, s :- ReadFlagged(cursor, satMask, 2, U8, rules, p, s);
    glonass, s :- ReadFlagged(cursor, satMask, 3, U8, rules, p, s);
    Finishes(rules, satMask, cursor.buf, p, s);
    r := Success([] + gps + beidou + galileo + glonass);
  }

  /** The satellite field of a fix. */
  method ReadSatellites(cursor: BufferCursor, ghost rules: seq<Rule>) returns (o: FieldRead)
    requires cursor.Valid() && SatelliteLayout(rules)
    modifies cursor`offset
    ensures cursor.Valid() && Reads(Flags(1, rules), cursor.buf, old(cursor.offset), o, cursor.offset)
  {
    var satMask := cursor.ReadUInt(1);
    if satMask.Failure? {
      return Threw(None);
    }
    var counts := ReadSatelliteCounts(cursor, satMask.value, rules);
    o := if counts.Failure? then Threw(None) else Stored(Fields(satMask.value, counts.value, []));
  }

  /** Bits 0 to 4 of a fix: type, dilution of precision, speed, azimuth, altitude. */
  method ReadMotion(cursor: BufferCursor, infoMask: nat, ghost rules: seq<Rule>, ghost p: nat, ghost s0: Scan)
    returns (r: Result<seq<Entry>, Option<Value>>, ghost s: Scan)
    requires cursor.Valid() && cursor.offset == s0.pos && Resumes(rules, infoMask, 0, cursor.buf, p, s0)
    requires MotionLayout(rules)
    modifies cursor`offset
    ensures cursor.Valid() && cursor.offset == s.pos
    ensures r.Success? ==> Resumes(rules, infoMask, 5, cursor.buf, p, s) && s.entries == s0.entries + r.value
    ensures r.Failure? ==> DecodeBits(rules, infoMask, 0, cursor.buf, p) == s && s.stop.Some?
  {
    var fixType, hdop, speed, azimuth, altitude;
    fixType, s :- ReadFlagged(cursor, infoMask, 0, U8, rules, p, s0);
    hdop, s :- ReadFlagged(cursor, infoMask, 1, U8, rules, p, s);
    speed, s :- ReadFlagged(cursor, infoMask, 2, U16, rules, p, s);
    azimuth, s :- ReadFlagged(cursor, infoMask, 3, U16, rules, p, s);
    altitude, s :- ReadFlagged(cursor, infoMask, 4, I16, rules, p, s);
    r := Success(fixType + hdop + speed + azimuth + altitude);
    AllAppended(s0.entries, fixType, hdop, speed, azimuth, altitude);
  }

  lemma AllAppended(before: seq<Entry>, e1: seq<Entry>, e2: seq<Entry>, e3: seq<Entry>, e4: seq<Entry>, e5: seq<Entry>)
    ensures before + e1 + e2 + e3 == before + (e1 + e2 + e3)
    ensures before + e1 + e2 + e3 + e4 + e5 == before + (e1 + e2 + e3 + e4 + e5)
  {}

  /** Bits 5 to 7 of a fix: latitude, longitude, UTC time. */
  method ReadPosition(cursor: BufferCursor, infoMask: nat, ghost rules: seq<Rule>, ghost p: nat, ghost s0: Scan)
    returns (r: Result<seq<Entry>, Option<Value>>, ghost s: Scan)
    requires cursor.Valid() && cursor.offset == s0.pos && Resumes(rules, infoMask, 5, cursor.buf, p, s0)
    requires PositionLayout(rules)
    modifies cursor`offset
    ensures cursor.Valid() && cursor.offset == s.pos
    ensures r.Success? ==> Resumes(rules, infoMask, 8, cursor.buf, p, s) && s.entries == s0.entries + r.value
    ensures r.Failure? ==> DecodeBits(rules, infoMask, 0, cursor.buf, p) == s && s.stop.Some?
  {
    var latitude, longitude, utcTime;
    latitude, s :- ReadFlagged(cursor, infoMask, 5, I32, rules, p, s0);
    longitude, s :- ReadFlagged(cursor, infoMask, 6, I32, rules, p, s);
    utcTime, s :- ReadFlagged(cursor, infoMask, 7, Raw(7), rules, p, s);
    r := Success(latitude + longitude + utcTime);
    AllAppended(s0.entries, latitude, longitude, utcTime, [], []);
  }

  /** Bit 8 of a fix. */
  method ReadSatelliteField(cursor: BufferCursor, infoMask: nat, ghost rules: seq<Rule>, ghost satellites: seq<Rule>,
                            ghost p: nat, ghost s: Scan)
    returns (r: Result<seq<Entry>, Option<Value>>, ghost t: Scan)
    requires cursor.Valid() && cursor.offset == s.pos && Resumes(rules, infoMask, 8, cursor.buf, p, s)
    requires HasShape(rules, 8, Flags(1, satellites)) && SatelliteLayout(satellites)
    modifies cursor`offset
    ensures cursor.Valid() && cursor.offset == t.pos
    ensures r.Success? ==> Resumes(rules, infoMask, 9, cursor.buf, p, t) && t.entries == s.entries + r.value
    ensures r.Failure? ==> DecodeBits(rules, infoMask, 0, cursor.buf, p) == t && t.stop.Some?
  {
    Steps(rules, infoMask, 8, cursor.buf, p, s);
    t := StepBit(rules, infoMask, 8, cursor.buf, s);
    if !Bit(infoMask, 8) {
      assert s.entries + [] == s.entries;
      return Success([]), t;
    }
    var o := ReadSatellites(cursor, satellites);
    r := if o.Threw? then Failure(o.partial) else Success([Entry(8, o.value)]);
  }

  method ParseGnssFix(cursor: BufferCursor, infoMask: nat, ghost rules: seq<Rule>, ghost satellites: seq<Rule>)
    returns (r: Result<seq<Entry>, Option<Value>>)
    requires cursor.Valid() && GnssLayout(rules, satellites)
    modifies cursor`offset
    ensures cursor.Valid() && MaskRead(rules, infoMask, cursor.buf, old(cursor.offset), r, cursor.offset)
  {
    ghost var p, s := cursor.offset, Start(cursor.offset);
    Starts(rules, infoMask, cursor.buf, p);
    var motion, position, sats;
    motion, s :- ReadMotion(cursor, infoMask, rules, p, s);
    position, s :- ReadPosition(cursor, infoMask, rules, p, s);
    sats, s :- ReadSatelliteField(cursor, infoMask, rules, satellites, p, s);
    Finishes(rules, infoMask, cursor.buf, p, s);
    r := Success([] + motion + position + sats);
  }

  /** One more record that shares the mask. */
  lemma NextRecord(rules: seq<Rule>, mask: nat, n: nat, i: nat, b: Buffer, start: nat, values: seq<Value>, p: nat,
                   r: Result<seq<Entry>, Option<Value>>, after: nat)
    requires start <= |b| && p <= |b| && i < n
    requires Continues(DecodeRecords(rules, mask, n, b, start), values, DecodeRecords(rules, mask, n - i, b, p))
    requires MaskRead(rules, mask, b, p, r, after)
    ensures after <= |b|
    ensures r.Success? ==>
      Continues(DecodeRecords(rules, mask, n, b, start), values + [Fields(mask, r.value, [])],
                DecodeRecords(rules, mask, n - i - 1, b, after))
    ensures r.Failure? ==>
              var d := DecodeRecords(rules, mask, n, b, start);
              !d.done && d.values == values && d.pos == after
  {
    if r.Success? {
      AssocStored(values, Stored(Fields(mask, r.value, [])), DecodeRecords(rules, mask, n - i - 1, b, after).values);
    } else {
      assert values + [] == values;
    }
  }

  /** `count` fixes that share one info mask; all or nothing. */
  method ParseGnssFixes(cursor: BufferCursor, infoMask: nat, count: nat, ghost rules: seq<Rule>,
                        ghost satellites: seq<Rule>)
    returns (done: bool, fixes: seq<Value>)
    requires cursor.Valid() && GnssLayout(rules, satellites)
    modifies cursor`offset
    ensures cursor.Valid()
    ensures var d := DecodeRecords(rules, infoMask, count, cursor.buf, old(cursor.offset));
            done == d.done && fixes == d.values && cursor.offset == d.pos
  {
    var i, start := 0, cursor.offset;
    done, fixes := true, [];
    while i < count
      invariant i <= count && cursor.Valid()
      invariant Continues(DecodeRecords(rules, infoMask, count, cursor.buf, start), fixes,
                          DecodeRecords(rules, infoMask, count - i, cursor.buf, cursor.offset))
    {
      ghost var at := cursor.offset;
      var fix := ParseGnssFix(cursor, infoMask, rules, satellites);
      NextRecord(rules, infoMask, count, i, cursor.buf, start, fixes, at, fix, cursor.offset);
      if fix.Failure? {
        done := false;
        return;
      }
      fixes := fixes + [Fields(infoMask, fix.value, [])];
      i := i + 1;
    }
    NoMore(DecodeRecords(rules, infoMask, count, cursor.buf, start), fixes, cursor.offset);
  }

  method ParseGnssBlock(cursor: BufferCursor, ghost rules: seq<Rule>, ghost satellites: seq<Rule>)
    returns (o: FieldRead)
    requires cursor.Valid() && GnssLayout(rules, satellites)
    modifies cursor`offset
    ensures cursor.Valid() && Reads(Repeated(2, rules), cursor.buf, old(cursor.offset), o, cursor.offset)
  {
    var infoMask := cursor.ReadUInt(2);
    if infoMask.Failure? {
      return Threw(None);
    }
    var count := cursor.ReadUInt(1);
    LoneByte(cursor.buf, old(cursor.offset) + 2);
    if count.Failure? {
      return Threw(None);
    }
    var done, fixes := ParseGnssFixes(cursor, infoMask.value, count.value, rules, satellites);
    o := if done then Stored(Records(infoMask.value, fixes)) else Threw(None);
  }

  // ------------------------------------------------------------------
  // 1-wire sensors
  // ------------------------------------------------------------------

  ghost predicate OneWireLayout(item: Shape, rules: seq<Rule>) {
    item == Tuple([Raw(8), Flags(1, rules)]) && |rules| == 2 && HasShape(rules, 0, I16) && HasShape(rules, 1, U8)
  }

  method ReadOneWireValues(cursor: BufferCursor, dataMask: nat, ghost rules: seq<Rule>)
    returns (r: Result<seq<Entry>, Option<Value>>)
    requires cursor.Valid() && |rules| == 2 && HasShape(rules, 0, I16) && HasShape(rules, 1, U8)
    modifies cursor`offset
    ensures cursor.Valid() && MaskRead(rules, dataMask, cursor.buf, old(cursor.offset), r, cursor.offset)
  {
    ghost var p, s := cursor.offset, Start(cursor.offset);
    Starts(rules, dataMask, cursor.buf, p);
    var temperature, humidity;
    temperature, s :- ReadFlagged(cursor, dataMask, 0, I16, rules, p, s);
    humidity, s :- ReadFlagged(cursor, dataMask, 1, U8, rules, p, s);
    Finishes(rules, dataMask, cursor.buf, p, s);
    r := Success([] + temperature + humidity);
  }

  /** Decoding the two items of a 1-wire reading in turn. */
  lemma OneWireUnfolds(item: Shape, rules: seq<Rule>, b: Buffer, p: nat)
    requires p <= |b| && OneWireLayout(item, rules)
    ensures var d := Decode(item, b, p);
            if |b| - p < 8 then d.Cut? && d.partial.None? && d.pos == p
            else
              var f := Decode(Flags(1, rules), b, p + 8);
              d.pos == f.pos &&
              if f.Cut? then d.Cut? && d.partial.None? else d.Good? && d.value == Items([Bytes(b[p..p + 8]), f.value])
  {
    var flags := Flags(1, rules);
    assert item.items == [Raw(8)] + ([flags] + []);
    DecodeCons(Raw(8), [flags] + [], b, p);
    if |b| - p >= 8 {
      DecodeCons(flags, [], b, p + 8);
    }
  }

  method ReadOneWireReading(cursor: BufferCursor, ghost item: Shape, ghost rules: seq<Rule>) returns (o: FieldRead)
    requires cursor.Valid() && OneWireLayout(item, rules)
    modifies cursor`offset
    ensures cursor.Valid() && Reads(item, cursor.buf, old(cursor.offset), o, cursor.offset)
  {
    OneWireUnfolds(item, rules, cursor.buf, cursor.offset);
    var sensorId := cursor.ReadBytes(8);
    if sensorId.Failure? {
      return Threw(None);
    }
    var dataMask := cursor.ReadUInt(1);
    if dataMask.Failure? {
      return Threw(None);
    }
    var readings := ReadOneWireValues(cursor, dataMask.value, rules);
    if readings.Failure? {
      return Threw(None);
    }
    o := Stored(Items([Bytes(sensorId.value), Fields(dataMask.value, readings.value, [])]));
  }

  /** Complete readings are kept even when a later one is cut. */
  method ReadOneWire(cursor: BufferCursor, ghost item: Shape, ghost rules: seq<Rule>) returns (o: FieldRead)
    requires cursor.Valid() && OneWireLayout(item, rules)
    modifies cursor`offset
    ensures cursor.Valid() && Reads(Counted(item, true), cursor.buf, old(cursor.offset), o, cursor.offset)
  {
    var sensorCount := cursor.ReadUInt(1);
    LoneByte(cursor.buf, old(cursor.offset));
    if sensorCount.Failure? {
      return Threw(None);
    }
    var done, oneWire := ReadOneWireReadings(cursor, sensorCount.value, item, rules);
    o := if done then Stored(Items(oneWire)) else Threw(Some(Items(oneWire)));
    CountedReads(item, true, cursor.buf, old(cursor.offset), done, oneWire, cursor.offset, o);
  }

  method ReadOneWireReadings(cursor: BufferCursor, sensorCount: nat, ghost item: Shape, ghost rules: seq<Rule>)
    returns (done: bool, oneWire: seq<Value>)
    requires cursor.Valid() && OneWireLayout(item, rules)
    modifies cursor`offset
    ensures cursor.Valid()
    ensures var d := DecodeList(item, sensorCount, cursor.buf, old(cursor.offset));
            done == d.done && oneWire == d.values && cursor.offset == d.pos
  {
    var i, start := 0, cursor.offset;
    done, oneWire := true, [];
    while i < sensorCount
      invariant i <= sensorCount && cursor.Valid()
      invariant Continues(DecodeList(item, sensorCount, cursor.buf, start), oneWire,
                          DecodeList(item, sensorCount - i, cursor.buf, cursor.offset))
    {
      ghost var at := cursor.offset;
      var reading := ReadOneWireReading(cursor, item, rules);
      NextItem(item, sensorCount, i, cursor.buf, start, oneWire, at, reading, cursor.offset);
      if reading.Threw? {
        done := false;
        return;
      }
      oneWire := oneWire + [reading.value];
      i := i + 1;
    }
    NoMore(DecodeList(item, sensorCount, cursor.buf, start), oneWire, cursor.offset);
  }
}
