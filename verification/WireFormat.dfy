/**
 * The report data zone as bytes on the wire, written out bit by bit without the shapes that drive the
 * decoder; and the proof that the decoder reads exactly these bytes.
 */
module WireFormat {
  import opened Bytes
  import opened Wrappers
  import opened Schema

  // ------------------------------------------------------------------
  // Numbers
  // ------------------------------------------------------------------

  function W1(e: Buffer, i: nat): nat
    requires i < |e|
  {
    e[i] as nat
  }

  function W2(e: Buffer, i: nat): nat
    requires i + 2 <= |e|
  {
    256 * (e[i] as nat) + (e[i + 1] as nat)
  }

  function W3(e: Buffer, i: nat): nat
    requires i + 3 <= |e|
  {
    65536 * (e[i] as nat) + 256 * (e[i + 1] as nat) + (e[i + 2] as nat)
  }

  function W4(e: Buffer, i: nat): nat
    requires i + 4 <= |e|
  {
    16777216 * (e[i] as nat) + 65536 * (e[i + 1] as nat) + 256 * (e[i + 2] as nat) + (e[i + 3] as nat)
  }

  /** Two's complement. */
  function Signed(n: nat, half: nat): int {
    if n < half then n else n - 2 * half
  }

  // ------------------------------------------------------------------
  // Masks
  // ------------------------------------------------------------------

  function Pow2(n: nat): (r: nat)
    ensures r > 0
  {
    if n == 0 then 1 else 2 * Pow2(n - 1)
  }

  predicate Announced(mask: nat, bit: nat) {
    mask / Pow2(bit) % 2 == 1
  }

  /** The masks of a report. */
  datatype Table =
    | DataBits | EventBits | CanBits1 | CanBits2 | ElectricBits | CanBits3 | AdvancedBits
    | FixBits | SatelliteBits | SensorBits

  function Size(t: Table): nat {
    match t
    case FixBits => 9
    case SatelliteBits => 4
    case SensorBits => 2
    case _ => 32
  }

  /** How deep a table nests. */
  function Rank(t: Table): nat {
    match t
    case DataBits => 2
    case EventBits => 1
    case FixBits => 1
    case _ => 0
  }

  /** The bytes of a field, big-endian. */
  datatype Coding =
    | U1 | U2 | U3 | U4 | I1 | I2 | I4
    | Opaque(width: nat)          // that many bytes as they are
    | Dropped(width: nat)         // that many bytes, ignored
    | Prefixed | Text             // a length byte and that many bytes; the same as 7-bit text
    | Run(items: seq<Coding>)     // one behind the other
    | TroubleCodes | Tyres        // a count byte and that many items
    | Sensors                     // a count byte and that many 1-wire sensors
    | Fixes                       // a 2-byte mask, a count byte, and fixes that share the mask
    | Satellites                  // a 1-byte mask and its fields
    | Nested(table: Table)        // a 4-byte mask and its fields

  function CodingRank(c: Coding): nat {
    match c
    case Sensors => 1
    case Satellites => 1
    case Fixes => 2
    case Nested(t) => Rank(t) + 1
    case _ => 0
  }

  /** A bit carries a field, stands for nothing at all, or is reported as not decoded. */
  datatype BitUse = Carried(coding: Coding) | Silent | Unknown

  function UsesOf(t: Table): nat -> BitUse {
    match t
    case DataBits => DataBit
    case EventBits => EventBit
    case CanBits1 => CanBit1
    case CanBits2 => CanBit2
    case ElectricBits => ElectricBit
    case CanBits3 => CanBit3
    case AdvancedBits => AdvancedBit
    case FixBits => FixBit
    case SatelliteBits => SatelliteBit
    case SensorBits => SensorBit
  }

  function UseOf(t: Table, bit: nat): (u: BitUse)
    ensures u.Carried? ==> CodingRank(u.coding) <= Rank(t)
  {
    UsesOf(t)(bit)
  }

  /** The Data Mask. */
  function DataBit(bit: nat): (u: BitUse)
    ensures u.Carried? ==> CodingRank(u.coding) <= 2
  {
    match bit
    case 0 => Carried(Run([U1, U1]))
    case 1 => Carried(U1)
    case 2 => Carried(Run([U2, U1]))
    case 3 => Carried(Fixes)
    case 4 => Carried(Run([U2, U2, U2, U4, U1]))
    case 5 => Silent
    case 6 => Silent
    case 7 => Carried(Run([U1, Dropped(2)]))
    case 8 => Carried(Nested(EventBits))
    case 9 => Carried(Nested(CanBits1))
    case 10 => Carried(Nested(CanBits2))
    case 11 => Carried(Nested(ElectricBits))
    case 23 => Carried(Nested(CanBits3))
    case 24 => Carried(Nested(AdvancedBits))
    case _ => Unknown
  }

  /** The Event Data Mask. */
  function EventBit(bit: nat): (u: BitUse)
    ensures u.Carried? ==> CodingRank(u.coding) <= 1
  {
    match bit
    case 0 => Carried(U2)
    case 1 => Carried(Run([U1, U2]))
    case 2 => Carried(U1)
    case 3 => Carried(U1)
    case 4 => Carried(U1)
    case 5 => Carried(Run([U2, U4]))
    case 6 => Silent
    case 7 => Carried(U4)
    case 8 => Carried(Prefixed)
    case 9 => Carried(Sensors)
    case 10 => Carried(Run([Opaque(3), Opaque(5)]))
    case 11 => Carried(Run([I1, I1, I1, I1, I1, I1, I1, I1, I1]))
    case 12 => Carried(Run([U1, U1, I2, I2, I2]))
    case 13 => Silent
    case 14 => Carried(Run([U1, U1, U1]))
    case 21 => Carried(U4)
    case 23 => Carried(U4)
    case 25 => Carried(U4)
    case _ => Unknown
  }

  /** CAN Info Mask 1. */
  function CanBit1(bit: nat): (u: BitUse)
    ensures u.Carried? ==> CodingRank(u.coding) <= 0
  {
    match bit
    case 0 => Carried(Text)
    case 1 => Carried(U1)
    case 2 => Carried(U4)
    case 3 => Carried(U4)
    case 4 => Carried(U4)
    case 5 => Carried(U2)
    case 6 => Carried(U2)
    case 7 => Carried(I2)
    case 8 => Carried(Run([U2, U2]))
    case 9 => Carried(Run([U1, U1]))
    case 10 => Carried(U3)
    case 11 => Carried(U1)
    case 12 => Carried(U4)
    case 13 => Carried(U4)
    case 14 => Carried(U4)
    case 15 => Carried(U4)
    case 16 => Carried(U2)
    case 17 => Carried(U2)
    case 18 => Carried(U2)
    case 19 => Carried(U2)
    case 20 => Carried(U4)
    case 21 => Carried(U4)
    case 22 => Carried(U1)
    case 23 => Carried(U1)
    case 24 => Carried(U4)
    case 25 => Carried(U4)
    case 26 => Carried(U3)
    case 27 => Carried(U3)
    case 28 => Carried(U3)
    case 29 => Carried(U4)
    case 30 => Carried(U2)
    case _ => Unknown
  }

  /** CAN Info Mask 2. */
  function CanBit2(bit: nat): (u: BitUse)
    ensures u.Carried? ==> CodingRank(u.coding) <= 0
  {
    match bit
    case 0 => Carried(U1)
    case 1 => Carried(U1)
    case 2 => Carried(U1)
    case 3 => Carried(U2)
    case 4 => Carried(U2)
    case 5 => Carried(U2)
    case 6 => Carried(U2)
    case 7 => Carried(U4)
    case 8 => Carried(U4)
    case 9 => Carried(U3)
    case 10 => Carried(U4)
    case 11 => Carried(U4)
    case 12 => Carried(U4)
    case 13 => Carried(U3)
    case 14 => Carried(I2)
    case 15 => Carried(Text)
    case 16 => Silent
    case 17 => Silent
    case 18 => Carried(Text)
    case 19 => Carried(U3)
    case 20 => Carried(U3)
    case 21 => Carried(U1)
    case 22 => Carried(I4)
    case 23 => Carried(I2)
    case 24 => Carried(TroubleCodes)
    case 25 => Carried(Run([U1, U1]))
    case 26 => Carried(Run([U1, U1]))
    case 27 => Carried(U4)
    case 28 => Carried(U4)
    case 29 => Carried(Tyres)
    case 30 => Carried(U2)
    case _ => Unknown
  }

  /** Electric Info Mask 1. */
  function ElectricBit(bit: nat): (u: BitUse)
    ensures u.Carried? ==> CodingRank(u.coding) <= 0
  {
    match bit
    case 0 => Carried(U2)
    case 1 => Carried(U2)
    case 2 => Carried(U4)
    case 3 => Carried(U1)
    case 4 => Carried(U2)
    case 5 => Carried(I2)
    case 6 => Carried(U2)
    case 7 => Carried(I2)
    case 8 => Carried(U1)
    case 9 => Carried(U4)
    case 10 => Carried(U4)
    case 11 => Carried(U4)
    case 12 => Carried(U1)
    case _ => Unknown
  }

  /** CAN Info Mask 3. */
  function CanBit3(bit: nat): (u: BitUse)
    ensures u.Carried? ==> CodingRank(u.coding) <= 0
  {
    match bit
    case 0 => Carried(U4)
    case 2 => Carried(U4)
    case 3 => Carried(U4)
    case 4 => Carried(U4)
    case 8 => Carried(U1)
    case _ => Unknown
  }

  /** CAN Advanced Info Mask 1: every bit carries a length-prefixed reading. */
  function AdvancedBit(bit: nat): (u: BitUse)
    ensures u.Carried? ==> CodingRank(u.coding) <= 0
  {
    if bit < 32 then Carried(Prefixed) else Unknown
  }

  /** The info mask of GNSS fixes; its bits from 9 on are ignored. */
  function FixBit(bit: nat): (u: BitUse)
    ensures u.Carried? ==> CodingRank(u.coding) <= 1
  {
    match bit
    case 0 => Carried(U1)
    case 1 => Carried(U1)
    case 2 => Carried(U2)
    case 3 => Carried(U2)
    case 4 => Carried(I2)
    case 5 => Carried(I4)
    case 6 => Carried(I4)
    case 7 => Carried(Opaque(7))
    case 8 => Carried(Satellites)
    case _ => Unknown
  }

  /** The satellite mask of a fix. */
  function SatelliteBit(bit: nat): (u: BitUse)
    ensures u.Carried? ==> CodingRank(u.coding) <= 0
  {
    match bit
    case 0 => Carried(U1)
    case 1 => Carried(U1)
    case 2 => Carried(U1)
    case 3 => Carried(U1)
    case _ => Unknown
  }

  /** The data mask of a 1-wire sensor. */
  function SensorBit(bit: nat): (u: BitUse)
    ensures u.Carried? ==> CodingRank(u.coding) <= 0
  {
    match bit
    case 0 => Carried(I2)
    case 1 => Carried(U1)
    case _ => Unknown
  }

  // ------------------------------------------------------------------
  // What bytes mean
  // ------------------------------------------------------------------

  function WidthOf(c: Coding): nat {
    match c
    case U1 => 1
    case U2 => 2
    case U3 => 3
    case U4 => 4
    case I1 => 1
    case I2 => 2
    case I4 => 4
    case Opaque(w) => w
    case Dropped(w) => w
    case _ => 0
  }

  /** The bytes from `i` on mean `v`, for codings of a fixed width. */
  predicate MeansAt(c: Coding, e: Buffer, i: nat, v: Value)
    requires i + WidthOf(c) <= |e|
  {
    match c
    case U1 => v == Num(W1(e, i))
    case U2 => v == Num(W2(e, i))
    case U3 => v == Num(W3(e, i))
    case U4 => v == Num(W4(e, i))
    case I1 => v == Num(Signed(W1(e, i), 128))
    case I2 => v == Num(Signed(W2(e, i), 32768))
    case I4 => v == Num(Signed(W4(e, i), 2147483648))
    case Opaque(w) => v == Bytes(e[i..i + w])
    case Dropped(_) => v == Gap
    case _ => false
  }

  /** The bytes from `i` to the end mean these values, one behind the other. */
  predicate RunMeans(items: seq<Coding>, e: Buffer, i: nat, vs: seq<Value>)
    decreases |items|
  {
    if items == [] then i == |e| && vs == []
    else
      && i + WidthOf(items[0]) <= |e| && vs != []
      && MeansAt(items[0], e, i, vs[0]) && RunMeans(items[1..], e, i + WidthOf(items[0]), vs[1..])
  }

  predicate PrefixedMeans(e: Buffer, v: Value) {
    |e| > 0 && |e| == 1 + W1(e, 0) && v == Bytes(e[1..])
  }

  predicate TextMeans(e: Buffer, v: Value) {
    && |e| > 0 && |e| == 1 + W1(e, 0)
    && v.Bytes? && |v.bytes| == |e| - 1 && forall i :: 0 <= i < |v.bytes| ==> v.bytes[i] == e[1 + i] % 128
  }

  /** Trouble codes are three bytes each. */
  predicate TroubleCodesMean(e: Buffer, v: Value) {
    && |e| > 0 && |e| == 1 + 3 * W1(e, 0)
    && v.Items? && |v.values| == W1(e, 0)
    && forall i :: 0 <= i < |v.values| ==> v.values[i] == Bytes(e[1 + 3 * i..4 + 3 * i])
  }

  /** A tyre is its location, pressure, temperature and state. */
  function TyreAt(e: Buffer, i: nat): Value
    requires i + 7 <= |e|
  {
    Items([Num(W1(e, i)), Num(W2(e, i + 1)), Num(W3(e, i + 3)), Num(W1(e, i + 6))])
  }

  predicate TyresMean(e: Buffer, v: Value) {
    && |e| > 0 && |e| == 1 + 7 * W1(e, 0)
    && v.Items? && |v.values| == W1(e, 0)
    && forall i :: 0 <= i < |v.values| ==> v.values[i] == TyreAt(e, 1 + 7 * i)
  }

  /** A field as it was sent, and what it means. */
  datatype Sent = Sent(bit: nat, bytes: Buffer, value: Value, warnings: seq<Warning>)

  function BytesOf(fields: seq<Sent>): Buffer {
    if fields == [] then [] else fields[0].bytes + BytesOf(fields[1..])
  }

  function EntriesOf(fields: seq<Sent>): seq<Entry> {
    if fields == [] then [] else [Entry(fields[0].bit, fields[0].value)] + EntriesOf(fields[1..])
  }

  function WarningsOf(fields: seq<Sent>): seq<Warning> {
    if fields == [] then [] else fields[0].warnings + WarningsOf(fields[1..])
  }

  /** The bits of a mask, from `bit` on, that are reported as not decoded. */
  function UnknownFrom(t: Table, mask: nat, bit: nat): seq<nat>
    requires bit <= Size(t)
    decreases Size(t) - bit
  {
    if bit == Size(t) then []
    else (if Announced(mask, bit) && UseOf(t, bit).Unknown? then [bit] else []) + UnknownFrom(t, mask, bit + 1)
  }

  function KindOf(t: Table): BlockKind {
    match t
    case EventBits => EventDataMask
    case CanBits1 => CanInfoMask1
    case CanBits2 => CanInfoMask2
    case ElectricBits => ElectricInfoMask1
    case CanBits3 => CanInfoMask3
    case AdvancedBits => CanAdvancedInfoMask1
    case _ => DataMask
  }

  /** One warning if there are bits that are not decoded. */
  function UnknownWarnings(t: Table, mask: nat): seq<Warning> {
    if UnknownFrom(t, mask, 0) == [] then [] else [NotDecoded(KindOf(t), UnknownFrom(t, mask, 0))]
  }

  /** The fields that a mask announces from `bit` on, lowest bit first. */
  ghost predicate FieldsFrom(t: Table, mask: nat, bit: nat, fields: seq<Sent>)
    requires bit <= Size(t)
    decreases Rank(t), 2, Size(t) - bit
  {
    if bit == Size(t) then fields == []
    else if Announced(mask, bit) && UseOf(t, bit).Carried? then
      && fields != [] && fields[0].bit == bit && Carries(t, fields[0])
      && FieldsFrom(t, mask, bit + 1, fields[1..])
    else FieldsFrom(t, mask, bit + 1, fields)
  }

  /** The field is that of its bit, and its bytes mean its value. */
  ghost predicate Carries(t: Table, f: Sent)
    decreases Rank(t), 1, 0
  {
    var u := UseOf(t, f.bit);
    u.Carried? && Means(u.coding, f.bytes, f.value, f.warnings)
  }

  ghost predicate Means(c: Coding, e: Buffer, v: Value, ws: seq<Warning>)
    decreases CodingRank(c), 0, 0
  {
    match c
    case Prefixed => PrefixedMeans(e, v) && ws == []
    case Text => TextMeans(e, v) && ws == []
    case Run(items) => v.Items? && RunMeans(items, e, 0, v.values) && ws == []
    case TroubleCodes => TroubleCodesMean(e, v) && ws == []
    case Tyres => TyresMean(e, v) && ws == []
    case Sensors => ws == [] && exists sensors :: SensorsSent(sensors, e, v)
    case Fixes => ws == [] && exists word, fixes :: FixesSent(word, fixes, e, v)
    case Satellites => ws == [] && exists mask, counts :: SatellitesSent(mask, counts, e, v)
    case Nested(t) => exists word, fields :: BlockSent(t, word, fields, e, v, ws)
    case _ => |e| == WidthOf(c) && MeansAt(c, e, 0, v) && ws == []
  }

  /** A mask byte and the counts it announces. */
  ghost predicate SatellitesSent(mask: Byte, counts: seq<Sent>, e: Buffer, v: Value)
    decreases 0, 3, 0
  {
    && FieldsFrom(SatelliteBits, mask as nat, 0, counts)
    && e == [mask] + BytesOf(counts)
    && v == Fields(mask as nat, EntriesOf(counts), [])
  }

  /** A 1-wire sensor: eight bytes of id, a mask byte, the readings it announces. */
  datatype Sensor = Sensor(id: Buffer, mask: Byte, readings: seq<Sent>)

  function SensorPart(s: Sensor): Buffer {
    s.id + ([s.mask] + BytesOf(s.readings))
  }

  function SensorValue(s: Sensor): Value {
    Items([Bytes(s.id), Fields(s.mask as nat, EntriesOf(s.readings), [])])
  }

  function SensorBytes(sensors: seq<Sensor>): Buffer {
    if sensors == [] then []
    else SensorPart(sensors[0]) + SensorBytes(sensors[1..])
  }

  function SensorValues(sensors: seq<Sensor>): (vs: seq<Value>)
    ensures |vs| == |sensors|
  {
    if sensors == [] then [] else [SensorValue(sensors[0])] + SensorValues(sensors[1..])
  }

  ghost predicate IsSensor(s: Sensor)
    decreases 0, 3, 0
  {
    |s.id| == 8 && FieldsFrom(SensorBits, s.mask as nat, 0, s.readings)
  }

  ghost predicate SensorsSent(sensors: seq<Sensor>, e: Buffer, v: Value)
    decreases 0, 4, 0
  {
    && |sensors| < 256 && (forall s :: s in sensors ==> IsSensor(s))
    && e == [|sensors| as Byte] + SensorBytes(sensors)
    && v == Items(SensorValues(sensors))
  }

  function FixBytes(fixes: seq<seq<Sent>>): Buffer {
    if fixes == [] then [] else BytesOf(fixes[0]) + FixBytes(fixes[1..])
  }

  function FixValues(mask: nat, fixes: seq<seq<Sent>>): (vs: seq<Value>)
    ensures |vs| == |fixes|
  {
    if fixes == [] then [] else [Fields(mask, EntriesOf(fixes[0]), [])] + FixValues(mask, fixes[1..])
  }

  ghost predicate FixesSent(word: Buffer, fixes: seq<seq<Sent>>, e: Buffer, v: Value)
    decreases 1, 3, 0
  {
    && |word| == 2 && |fixes| < 256
    && (forall x :: x in fixes ==> FieldsFrom(FixBits, W2(word, 0), 0, x))
    && e == word + ([|fixes| as Byte] + FixBytes(fixes))
    && v == Records(W2(word, 0), FixValues(W2(word, 0), fixes))
  }

  /** A nested block: its mask word and the fields it announces. */
  ghost predicate BlockSent(t: Table, word: Buffer, fields: seq<Sent>, e: Buffer, v: Value, ws: seq<Warning>)
    decreases Rank(t), 3, 0
  {
    && |word| == 4 && FieldsFrom(t, W4(word, 0), 0, fields)
    && e == word + BytesOf(fields)
    && v == Fields(W4(word, 0), EntriesOf(fields), UnknownFrom(t, W4(word, 0), 0))
    && ws == WarningsOf(fields) + UnknownWarnings(t, W4(word, 0))
  }

  // ------------------------------------------------------------------
  // The tables agree
  // ------------------------------------------------------------------

  ghost function ShapeOf(c: Coding, tables: Tables): Shape
    decreases c
  {
    match c
    case U1 => UInt(1)
    case U2 => UInt(2)
    case U3 => UInt(3)
    case U4 => UInt(4)
    case I1 => SInt(1)
    case I2 => SInt(2)
    case I4 => SInt(4)
    case Opaque(w) => Raw(w)
    case Dropped(w) => Skip(w)
    case Prefixed => Blob
    case Text => Ascii
    case Run(items) => Tuple(ShapesOf(items, tables))
    case TroubleCodes => Counted(Raw(3), false)
    case Tyres => Counted(Tuple([UInt(1), UInt(2), UInt(3), UInt(1)]), false)
    case Sensors => Counted(Tuple([Raw(8), Flags(1, tables(SensorBits))]), true)
    case Fixes => Repeated(2, tables(FixBits))
    case Satellites => Flags(1, tables(SatelliteBits))
    case Nested(t) => Block(KindOf(t), tables(t))
  }

  ghost function ShapesOf(items: seq<Coding>, tables: Tables): (r: seq<Shape>)
    ensures |r| == |items|
    ensures forall i :: 0 <= i < |items| ==> r[i] == ShapeOf(items[i], tables)
    decreases items
  {
    seq(|items|, i requires 0 <= i < |items| => ShapeOf(items[i], tables))
  }

  /** The use of a bit is that of the decoder's rule. */
  ghost predicate SameUse(u: BitUse, rule: Rule, tables: Tables) {
    match u
    case Carried(coding) => rule.Field? && rule.shape == ShapeOf(coding, tables)
    case Silent => rule == Reserved
    case Unknown => rule == Unsupported
  }

  lemma {:induction false} BitAnnounced(mask: nat, bit: nat)
    ensures Bit(mask, bit) <==> Announced(mask, bit)
  {
    if bit > 0 {
      BitAnnounced(mask / 2, bit - 1);
      HalfThenQuotient(mask, Pow2(bit - 1));
    }
  }

  lemma HalfThenQuotient(n: nat, k: nat)
    requires k > 0
    ensures n / 2 / k == n / (2 * k)
  {
    var q, d := n / 2 / k, 2 * k;
    var kq, h := k * q, n / 2;
    assert h == k * q + h % k;
    assert kq <= h < kq + k;
    Doubled(k, q, d);
    QuotientIs(n, d, q, d * q);
  }

  lemma Doubled(k: nat, q: nat, d: nat)
    requires d == 2 * k
    ensures d * q == 2 * (k * q)
  {}

  lemma QuotientIs(n: nat, d: nat, q: nat, dq: nat)
    requires dq == d * q && dq <= n < dq + d
    ensures n / d == q
  {
    var x := n / d;
    assert n == d * x + n % d;
    if x < q {
      Grows(d, x + 1, q);
    } else if x > q {
      Grows(d, q + 1, x);
    }
  }

  lemma Grows(d: nat, x: nat, y: nat)
    requires x <= y
    ensures d * x <= d * y
  {}

  // ------------------------------------------------------------------
  // The decoder reads these bytes: fields without parts, and runs of them
  // ------------------------------------------------------------------

  /** `b` holds `e` at `p`, byte for byte. */
  ghost predicate Lies(b: Buffer, p: nat, e: Buffer) {
    p + |e| <= |b| && forall j :: 0 <= j < |e| ==> b[p + j] == e[j]
  }

  lemma LiesSplit(b: Buffer, p: nat, x: Buffer, y: Buffer)
    requires Lies(b, p, x + y)
    ensures Lies(b, p, x) && Lies(b, p + |x|, y)
  {
    forall j | 0 <= j < |x|
      ensures b[p + j] == x[j]
    {
      assert (x + y)[j] == x[j];
    }
    forall j | 0 <= j < |y|
      ensures b[p + |x| + j] == y[j]
    {
      assert (x + y)[|x| + j] == y[j];
    }
  }

  /** A byte and what follows it. */
  lemma LiesByte(b: Buffer, p: nat, n: Byte, y: Buffer)
    requires Lies(b, p, [n] + y)
    ensures p < |b| && b[p] == n && Lies(b, p + 1, y)
  {
    LiesSplit(b, p, [n], y);
    assert b[p + 0] == [n][0];
  }

  lemma SliceHeld(b: Buffer, p: nat, e: Buffer, i: nat, w: nat)
    requires Lies(b, p, e) && i + w <= |e|
    ensures b[p + i..p + i + w] == e[i..i + w]
  {
    var x, y := b[p + i..p + i + w], e[i..i + w];
    forall j | 0 <= j < w
      ensures x[j] == y[j]
    {
      assert b[p + (i + j)] == e[i + j];
    }
  }

  lemma WordReads(b: Buffer, p: nat)
    ensures p + 1 <= |b| ==> UIntAt(b, p, 1) == W1(b, p)
    ensures p + 2 <= |b| ==> UIntAt(b, p, 2) == W2(b, p)
    ensures p + 3 <= |b| ==> UIntAt(b, p, 3) == W3(b, p)
    ensures p + 4 <= |b| ==> UIntAt(b, p, 4) == W4(b, p)
  {
    if p + 1 <= |b| {
      assert UIntAt(b, p, 0) == 0;
    }
    if p + 2 <= |b| {
      assert UIntAt(b, p, 2) == 256 * UIntAt(b, p, 1) + b[p + 1] as nat;
    }
    if p + 3 <= |b| {
      assert UIntAt(b, p, 3) == 256 * UIntAt(b, p, 2) + b[p + 2] as nat;
    }
    if p + 4 <= |b| {
      assert UIntAt(b, p, 4) == 256 * UIntAt(b, p, 3) + b[p + 3] as nat;
    }
  }

  lemma PowersOf256()
    ensures Pow256(1) == 256 && Pow256(2) == 65536 && Pow256(4) == 4294967296
  {
    assert Pow256(0) == 1;
    assert Pow256(1) == 256 * Pow256(0);
    assert Pow256(2) == 256 * Pow256(1);
    assert Pow256(3) == 256 * Pow256(2);
    assert Pow256(4) == 256 * Pow256(3);
  }

  /** The words of a field are those of the zone that holds it. */
  lemma WordsHeld(b: Buffer, p: nat, e: Buffer, i: nat)
    requires Lies(b, p, e)
    ensures i + 1 <= |e| ==> W1(b, p + i) == W1(e, i)
    ensures i + 2 <= |e| ==> W2(b, p + i) == W2(e, i)
    ensures i + 3 <= |e| ==> W3(b, p + i) == W3(e, i)
    ensures i + 4 <= |e| ==> W4(b, p + i) == W4(e, i)
  {
    assert i + 1 <= |e| ==> b[p + i] == e[i];
    assert i + 2 <= |e| ==> b[p + (i + 1)] == e[i + 1];
    assert i + 3 <= |e| ==> b[p + (i + 2)] == e[i + 2];
    assert i + 4 <= |e| ==> b[p + (i + 3)] == e[i + 3];
  }

  ghost predicate IsPlain(c: Coding) {
    c.U1? || c.U2? || c.U3? || c.U4? || c.I1? || c.I2? || c.I4? || c.Opaque? || c.Dropped?
  }

  lemma PlainReads(tables: Tables, c: Coding, b: Buffer, p: nat, v: Value)
    requires IsPlain(c) && p + WidthOf(c) <= |b| && MeansAt(c, b, p, v)
    ensures Decode(ShapeOf(c, tables), b, p) == Good(v, p + WidthOf(c), [])
  {
    WordReads(b, p);
    PowersOf256();
  }

  /** A meaning in a field is one in the zone that holds it. */
  lemma MeansHeld(c: Coding, b: Buffer, p: nat, e: Buffer, i: nat, v: Value)
    requires Lies(b, p, e) && i + WidthOf(c) <= |e| && MeansAt(c, e, i, v)
    ensures MeansAt(c, b, p + i, v)
  {
    WordsHeld(b, p, e, i);
    if c.Opaque? {
      SliceHeld(b, p, e, i, c.width);
    }
  }

  lemma {:induction false} RunReads(tables: Tables, items: seq<Coding>, e: Buffer, i: nat, vs: seq<Value>, b: Buffer,
                                    p: nat)
    requires RunMeans(items, e, i, vs) && Lies(b, p, e) && i <= |e|
    ensures DecodeAll(ShapesOf(items, tables), b, p + i) == Many(vs, true, p + |e|, [])
    decreases |items|
  {
    if items != [] {
      var c, more, at, next := items[0], items[1..], p + i, p + i + WidthOf(items[0]);
      RunReads(tables, more, e, i + WidthOf(c), vs[1..], b, p);
      ItemHere(tables, c, e, i, vs[0], b, p, at);
      RunCons(tables, c, more, vs[0], vs[1..], b, at, next, p + |e|);
      assert items == [c] + more && vs == [vs[0]] + vs[1..];
    }
  }

  lemma ItemHere(tables: Tables, c: Coding, e: Buffer, i: nat, v: Value, b: Buffer, p: nat, at: nat)
    requires Lies(b, p, e) && i + WidthOf(c) <= |e| && MeansAt(c, e, i, v) && at == p + i
    ensures at + WidthOf(c) <= |b| && Decode(ShapeOf(c, tables), b, at) == Good(v, at + WidthOf(c), [])
  {
    MeansHeld(c, b, p, e, i, v);
    PlainReads(tables, c, b, at, v);
  }

  lemma RunCons(tables: Tables, c: Coding, more: seq<Coding>, v: Value, vs: seq<Value>, b: Buffer, at: nat, next: nat,
                end: nat)
    requires at <= |b| && next <= |b| && Decode(ShapeOf(c, tables), b, at) == Good(v, next, [])
    requires DecodeAll(ShapesOf(more, tables), b, next) == Many(vs, true, end, [])
    ensures DecodeAll(ShapesOf([c] + more, tables), b, at) == Many([v] + vs, true, end, [])
  {
    assert ShapesOf([c] + more, tables) == [ShapeOf(c, tables)] + ShapesOf(more, tables);
    DecodeCons(ShapeOf(c, tables), ShapesOf(more, tables), b, at);
  }

  lemma PrefixedReads(e: Buffer, v: Value, b: Buffer, p: nat)
    requires PrefixedMeans(e, v) && Lies(b, p, e)
    ensures Decode(Blob, b, p) == Good(v, p + |e|, [])
  {
    WordsHeld(b, p, e, 0);
    SliceHeld(b, p, e, 1, |e| - 1);
  }

  lemma TextReads(e: Buffer, v: Value, b: Buffer, p: nat)
    requires TextMeans(e, v) && Lies(b, p, e)
    ensures Decode(Schema.Ascii, b, p) == Good(v, p + |e|, [])
  {
    WordsHeld(b, p, e, 0);
    SliceHeld(b, p, e, 1, |e| - 1);
    assert v.bytes == AsciiOf(e[1..|e|]);
  }

  // ------------------------------------------------------------------
  // Counted items
  // ------------------------------------------------------------------

  /** One item more in front of a list. */
  lemma ItemReads(item: Shape, n: nat, v: Value, more: seq<Value>, b: Buffer, p: nat, next: nat, end: nat)
    requires n > 0 && p <= |b| && next <= |b|
    requires Decode(item, b, p) == Good(v, next, [])
    requires DecodeList(item, n - 1, b, next) == Many(more, true, end, [])
    ensures DecodeList(item, n, b, p) == Many([v] + more, true, end, [])
  {}

  /** A list that ends where its bytes do, whatever its items, if each of them reads its own bytes. */
  lemma {:induction false} ListReads(item: Shape, vs: seq<Value>, at: seq<nat>, k: nat, b: Buffer)
    requires |at| == |vs| + 1 && k <= |vs| && at[|vs|] <= |b|
    requires forall i :: 0 <= i < |vs| ==> ItemLies(item, b, at[i], vs[i], at[i + 1])
    ensures at[k] <= |b| && DecodeList(item, |vs| - k, b, at[k]) == Many(vs[k..], true, at[|vs|], [])
    decreases |vs| - k
  {
    if k < |vs| {
      ListReads(item, vs, at, k + 1, b);
      assert ItemLies(item, b, at[k], vs[k], at[k + 1]);
      ItemReads(item, |vs| - k, vs[k], vs[k + 1..], b, at[k], at[k + 1], at[|vs|]);
      assert vs[k..] == [vs[k]] + vs[k + 1..];
    }
  }

  ghost predicate ItemLies(item: Shape, b: Buffer, p: nat, v: Value, next: nat) {
    p <= |b| && next <= |b| && Decode(item, b, p) == Good(v, next, [])
  }

  /** The offsets of `n` items of `w` bytes each. */
  function Offsets(p: nat, n: nat, w: nat): (at: seq<nat>)
    ensures |at| == n + 1 && forall i :: 0 <= i <= n ==> at[i] == p + i * w
  {
    seq(n + 1, i requires 0 <= i <= n => p + i * w)
  }

  /** A count byte and the items behind it. */
  lemma CountedFrom(item: Shape, keeps: bool, vs: seq<Value>, end: nat, b: Buffer, p: nat)
    requires p < |b| && b[p] as nat == |vs| && DecodeList(item, |vs|, b, p + 1) == Many(vs, true, end, [])
    ensures Decode(Counted(item, keeps), b, p) == Good(Items(vs), end, [])
  {}

  lemma TroubleCodesRead(e: Buffer, v: Value, b: Buffer, p: nat)
    requires TroubleCodesMean(e, v) && Lies(b, p, e)
    ensures Decode(Counted(Raw(3), false), b, p) == Good(v, p + |e|, [])
  {
    WordsHeld(b, p, e, 0);
    var vs, at := v.values, Offsets(p + 1, |v.values|, 3);
    forall i | 0 <= i < |vs|
      ensures ItemLies(Raw(3), b, at[i], vs[i], at[i + 1])
    {
      SliceHeld(b, p, e, 1 + 3 * i, 3);
    }
    ItemsRead(Raw(3), vs, at, p + |e|, b, p);
  }

  lemma TyreReads(tables: Tables, e: Buffer, i: nat, b: Buffer, p: nat)
    requires i + 7 <= |e| && Lies(b, p, e)
    ensures Decode(Tuple([UInt(1), UInt(2), UInt(3), UInt(1)]), b, p + i) == Good(TyreAt(e, i), p + i + 7, [])
  {
    var t := TyreBytes(e, i, b, p);
    var vs, at := TyreAt(e, i).values, p + i;
    TyreRun(t, vs);
    RunReads(tables, [U1, U2, U3, U1], t, 0, vs, b, at);
    TyreShapes(tables);
  }

  lemma TyreShapes(tables: Tables)
    ensures ShapesOf([U1, U2, U3, U1], tables) == [UInt(1), UInt(2), UInt(3), UInt(1)]
  {}

  /** The seven bytes of a tyre. */
  lemma TyreBytes(e: Buffer, i: nat, b: Buffer, p: nat) returns (t: Buffer)
    requires i + 7 <= |e| && Lies(b, p, e)
    ensures |t| == 7 && Lies(b, p + i, t)
    ensures TyreAt(e, i).values == [Num(W1(t, 0)), Num(W2(t, 1)), Num(W3(t, 3)), Num(W1(t, 6))]
  {
    t := e[i..i + 7];
    forall j | 0 <= j < 7
      ensures b[p + i + j] == t[j]
    {
      assert b[p + (i + j)] == e[i + j];
    }
  }

  lemma TyreRun(t: Buffer, vs: seq<Value>)
    requires |t| == 7 && vs == [Num(W1(t, 0)), Num(W2(t, 1)), Num(W3(t, 3)), Num(W1(t, 6))]
    ensures RunMeans([U1, U2, U3, U1], t, 0, vs)
  {
    assert RunMeans([], t, 7, []);
    assert [U1][1..] == [] && [vs[3]][1..] == [];
    assert RunMeans([U1], t, 6, [vs[3]]);
    assert [U3, U1][1..] == [U1] && [vs[2], vs[3]][1..] == [vs[3]];
    assert RunMeans([U3, U1], t, 3, [vs[2], vs[3]]);
    assert [U2, U3, U1][1..] == [U3, U1] && [vs[1], vs[2], vs[3]][1..] == [vs[2], vs[3]];
    assert RunMeans([U2, U3, U1], t, 1, [vs[1], vs[2], vs[3]]);
    assert [U1, U2, U3, U1][1..] == [U2, U3, U1] && vs[1..] == [vs[1], vs[2], vs[3]];
  }

  lemma TyreLies(tables: Tables, tyre: Shape, e: Buffer, v: Value, at: seq<nat>, i: nat, b: Buffer, p: nat)
    requires tyre == Tuple([UInt(1), UInt(2), UInt(3), UInt(1)]) && TyresMean(e, v) && Lies(b, p, e)
    requires i < |v.values| == |at| - 1 && at[i] == p + 1 + 7 * i && at[i + 1] == p + 8 + 7 * i
    ensures ItemLies(tyre, b, at[i], v.values[i], at[i + 1])
  {
    TyreReads(tables, e, 1 + 7 * i, b, p);
  }

  lemma TyresRead(tables: Tables, tyre: Shape, e: Buffer, v: Value, b: Buffer, p: nat)
    requires tyre == Tuple([UInt(1), UInt(2), UInt(3), UInt(1)]) && TyresMean(e, v) && Lies(b, p, e)
    ensures Decode(Counted(tyre, false), b, p) == Good(v, p + |e|, [])
  {
    WordsHeld(b, p, e, 0);
    var vs, at := v.values, Offsets(p + 1, |v.values|, 7);
    forall i | 0 <= i < |vs|
      ensures ItemLies(tyre, b, at[i], vs[i], at[i + 1])
    {
      TyreLies(tables, tyre, e, v, at, i, b, p);
    }
    ItemsRead(tyre, vs, at, p + |e|, b, p);
  }

  /** A count byte, and items that lie one behind the other. */
  lemma ItemsRead(item: Shape, vs: seq<Value>, at: seq<nat>, end: nat, b: Buffer, p: nat)
    requires p < |b| && b[p] as nat == |vs| && |at| == |vs| + 1 && at[0] == p + 1 && at[|vs|] == end <= |b|
    requires forall i :: 0 <= i < |vs| ==> ItemLies(item, b, at[i], vs[i], at[i + 1])
    ensures Decode(Counted(item, false), b, p) == Good(Items(vs), end, [])
  {
    ListReads(item, vs, at, 0, b);
    assert vs[0..] == vs;
    CountedFrom(item, false, vs, end, b, p);
  }

  // ------------------------------------------------------------------
  // Masks and the fields they announce
  // ------------------------------------------------------------------

  /** The rules a decoder has for each table. */
  type Tables = Table -> seq<Rule>

  /** The decoder's rules agree with the tables here, bit by bit. */
  ghost predicate AllAgree(tables: Tables) {
    forall t :: Agrees(t, tables(t), tables)
  }

  ghost predicate Agrees(t: Table, rules: seq<Rule>, tables: Tables) {
    |rules| == Size(t) && forall bit :: 0 <= bit < |rules| ==> SameUse(UseOf(t, bit), rules[bit], tables)
  }

  /** One field more in front of a scan. */
  lemma BitReads(rules: seq<Rule>, mask: nat, bit: nat, f: Sent, b: Buffer, p: nat, q: nat, s: Scan)
    requires bit < |rules| && Bit(mask, bit) && rules[bit].Field? && f.bit == bit && p <= |b| && q <= |b|
    requires Decode(rules[bit].shape, b, p) == Good(f.value, q, f.warnings)
    requires s == DecodeBits(rules, mask, bit + 1, b, q)
    ensures DecodeBits(rules, mask, bit, b, p) ==
            Scan([Entry(f.bit, f.value)] + s.entries, s.unsupported, s.stop, s.pos, f.warnings + s.warnings)
  {}

  /** A bit that reads nothing. */
  lemma BitSkips(rules: seq<Rule>, mask: nat, bit: nat, b: Buffer, p: nat, s: Scan)
    requires bit < |rules| && p <= |b| && !(Bit(mask, bit) && rules[bit].Field?)
    requires s == DecodeBits(rules, mask, bit + 1, b, p)
    ensures DecodeBits(rules, mask, bit, b, p) ==
            s.(unsupported := (if Bit(mask, bit) && rules[bit].Unsupported? then [bit] else []) + s.unsupported)
  {}

  /** What a scan of these fields gives. */
  ghost function ScanOf(t: Table, mask: nat, bit: nat, fields: seq<Sent>, p: nat): Scan
    requires bit <= Size(t)
  {
    Scan(EntriesOf(fields), UnknownFrom(t, mask, bit), None, p + |BytesOf(fields)|, WarningsOf(fields))
  }

  /** A mask loop reads the fields the mask announces, whatever the mask. */
  lemma {:induction false} FieldsRead(tables: Tables, t: Table, rules: seq<Rule>, mask: nat, bit: nat,
                                      fields: seq<Sent>, b: Buffer, p: nat)
    requires AllAgree(tables) && Agrees(t, rules, tables)
    requires bit <= Size(t) && FieldsFrom(t, mask, bit, fields) && Lies(b, p, BytesOf(fields))
    ensures DecodeBits(rules, mask, bit, b, p) == ScanOf(t, mask, bit, fields, p)
    decreases Rank(t), 2, Size(t) - bit
  {
    if bit < Size(t) {
      if Announced(mask, bit) && UseOf(t, bit).Carried? {
        var f, more, q := FieldHere(tables, t, rules, mask, bit, fields, b, p);
        FieldsRead(tables, t, rules, mask, bit + 1, more, b, q);
        CarriedStep(t, rules, mask, bit, f, more, b, p, q);
      } else {
        FieldsRead(tables, t, rules, mask, bit + 1, fields, b, p);
        SkippedStep(tables, t, rules, mask, bit, fields, b, p);
      }
    }
  }

  /** The first field is read, and the others lie behind it. */
  lemma {:induction false} FieldHere(tables: Tables, t: Table, rules: seq<Rule>, mask: nat, bit: nat,
                                     fields: seq<Sent>, b: Buffer, p: nat)
    returns (f: Sent, more: seq<Sent>, q: nat)
    requires AllAgree(tables) && Agrees(t, rules, tables) && bit < Size(t)
    requires Announced(mask, bit) && UseOf(t, bit).Carried?
    requires FieldsFrom(t, mask, bit, fields) && Lies(b, p, BytesOf(fields))
    ensures fields == [f] + more && f.bit == bit && FieldsFrom(t, mask, bit + 1, more)
    ensures q == p + |f.bytes| <= |b| && Lies(b, q, BytesOf(more))
    ensures rules[bit].Field? && Decode(rules[bit].shape, b, p) == Good(f.value, q, f.warnings)
    decreases Rank(t), 1, 1
  {
    f, more, q := FieldLies(t, mask, bit, fields, b, p);
    BitMeans(tables, t, rules, bit, f, b, p);
  }

  lemma FieldLies(t: Table, mask: nat, bit: nat, fields: seq<Sent>, b: Buffer, p: nat)
    returns (f: Sent, more: seq<Sent>, q: nat)
    requires bit < Size(t) && Announced(mask, bit) && UseOf(t, bit).Carried?
    requires FieldsFrom(t, mask, bit, fields) && Lies(b, p, BytesOf(fields))
    ensures fields == [f] + more && f.bit == bit && Carries(t, f) && FieldsFrom(t, mask, bit + 1, more)
    ensures q == p + |f.bytes| <= |b| && Lies(b, p, f.bytes) && Lies(b, q, BytesOf(more))
  {
    f, more := fields[0], fields[1..];
    q := p + |f.bytes|;
    LiesSplit(b, p, f.bytes, BytesOf(more));
  }

  lemma CarriedStep(t: Table, rules: seq<Rule>, mask: nat, bit: nat, f: Sent, more: seq<Sent>, b: Buffer, p: nat,
                    q: nat)
    requires bit < Size(t) == |rules| && Announced(mask, bit) && UseOf(t, bit).Carried?
    requires f.bit == bit && rules[bit].Field? && q == p + |f.bytes| <= |b|
    requires Decode(rules[bit].shape, b, p) == Good(f.value, q, f.warnings)
    requires DecodeBits(rules, mask, bit + 1, b, q) == ScanOf(t, mask, bit + 1, more, q)
    ensures DecodeBits(rules, mask, bit, b, p) == ScanOf(t, mask, bit, [f] + more, p)
  {
    BitAnnounced(mask, bit);
    BitReads(rules, mask, bit, f, b, p, q, ScanOf(t, mask, bit + 1, more, q));
    ScanCons(t, mask, bit, f, more, p, q);
  }

  lemma SkippedStep(tables: Tables, t: Table, rules: seq<Rule>, mask: nat, bit: nat, fields: seq<Sent>, b: Buffer,
                    p: nat)
    requires bit < |rules| && Agrees(t, rules, tables) && !(Announced(mask, bit) && UseOf(t, bit).Carried?)
    requires p <= |b| && DecodeBits(rules, mask, bit + 1, b, p) == ScanOf(t, mask, bit + 1, fields, p)
    ensures DecodeBits(rules, mask, bit, b, p) == ScanOf(t, mask, bit, fields, p)
  {
    BitAnnounced(mask, bit);
    assert SameUse(UseOf(t, bit), rules[bit], tables);
    BitSkips(rules, mask, bit, b, p, ScanOf(t, mask, bit + 1, fields, p));
  }

  lemma ScanCons(t: Table, mask: nat, bit: nat, f: Sent, more: seq<Sent>, p: nat, q: nat)
    requires bit < Size(t) && UseOf(t, bit).Carried? && q == p + |f.bytes|
    ensures var s := ScanOf(t, mask, bit + 1, more, q);
            ScanOf(t, mask, bit, [f] + more, p) ==
            Scan([Entry(f.bit, f.value)] + s.entries, s.unsupported, s.stop, s.pos, f.warnings + s.warnings)
  {
    assert ([f] + more)[1..] == more;
  }

  lemma {:induction false} BitMeans(tables: Tables, t: Table, rules: seq<Rule>, bit: nat, f: Sent, b: Buffer, p: nat)
    requires AllAgree(tables) && Agrees(t, rules, tables)
    requires bit < |rules| && f.bit == bit && Carries(t, f) && Lies(b, p, f.bytes)
    ensures rules[bit].Field? && Decode(rules[bit].shape, b, p) == Good(f.value, p + |f.bytes|, f.warnings)
    decreases Rank(t), 1, 0
  {
    assert SameUse(UseOf(t, bit), rules[bit], tables);
    FieldReads(tables, UseOf(t, bit).coding, f.bytes, f.value, f.warnings, b, p);
  }

  /** A field of any coding is read as what its bytes mean. */
  lemma {:induction false} FieldReads(tables: Tables, c: Coding, e: Buffer, v: Value, ws: seq<Warning>, b: Buffer,
                                      p: nat)
    requires AllAgree(tables) && Means(c, e, v, ws) && Lies(b, p, e)
    ensures Decode(ShapeOf(c, tables), b, p) == Good(v, p + |e|, ws)
    decreases CodingRank(c), 0, 0
  {
    if c.Sensors? {
      SensorsRead(tables, e, v, ws, b, p);
    } else if c.Fixes? {
      FixesRead(tables, e, v, ws, b, p);
    } else if c.Satellites? {
      SatellitesRead(tables, e, v, ws, b, p);
    } else if c.Nested? {
      NestedReads(tables, c.table, e, v, ws, b, p);
    } else {
      FlatReads(tables, c, e, v, ws, b, p);
    }
  }

  lemma FlatReads(tables: Tables, c: Coding, e: Buffer, v: Value, ws: seq<Warning>, b: Buffer, p: nat)
    requires !(c.Sensors? || c.Fixes? || c.Satellites? || c.Nested?)
    requires Means(c, e, v, ws) && Lies(b, p, e)
    ensures Decode(ShapeOf(c, tables), b, p) == Good(v, p + |e|, ws)
  {
    if IsPlain(c) {
      MeansHeld(c, b, p, e, 0, v);
      PlainReads(tables, c, b, p, v);
    } else {
      ListedReads(tables, c, e, v, b, p);
    }
  }

  lemma ListedReads(tables: Tables, c: Coding, e: Buffer, v: Value, b: Buffer, p: nat)
    requires c.Prefixed? || c.Text? || c.Run? || c.TroubleCodes? || c.Tyres?
    requires Means(c, e, v, []) && Lies(b, p, e)
    ensures Decode(ShapeOf(c, tables), b, p) == Good(v, p + |e|, [])
  {
    match c
    case Prefixed => PrefixedReads(e, v, b, p);
    case Text => TextReads(e, v, b, p);
    case Run(items) => RunReads(tables, items, e, 0, v.values, b, p);
    case TroubleCodes => TroubleCodesRead(e, v, b, p);
    case Tyres => TyresRead(tables, Tuple([UInt(1), UInt(2), UInt(3), UInt(1)]), e, v, b, p);
  }

  /** The masks inside fields announce nothing unknown, and their fields no warnings. */
  lemma {:induction false} InnerQuiet(t: Table, mask: nat, bit: nat, fields: seq<Sent>)
    requires t.FixBits? || t.SatelliteBits? || t.SensorBits?
    requires bit <= Size(t) && FieldsFrom(t, mask, bit, fields)
    ensures UnknownFrom(t, mask, bit) == [] && WarningsOf(fields) == []
    decreases Size(t) - bit
  {
    if bit < Size(t) {
      InnerBit(t, bit);
      if Announced(mask, bit) {
        var f, more := fields[0], fields[1..];
        InnerField(t, f);
        InnerQuiet(t, mask, bit + 1, more);
      } else {
        InnerQuiet(t, mask, bit + 1, fields);
      }
    }
  }

  lemma InnerBit(t: Table, bit: nat)
    requires (t.FixBits? || t.SatelliteBits? || t.SensorBits?) && bit < Size(t)
    ensures UseOf(t, bit).Carried?
  {}

  lemma InnerField(t: Table, f: Sent)
    requires (t.FixBits? || t.SatelliteBits? || t.SensorBits?) && Carries(t, f)
    ensures f.warnings == []
  {}

  /** A mask and the scan of its fields. */
  lemma FlagsFrom(w: nat, rules: seq<Rule>, mask: nat, s: Scan, b: Buffer, p: nat)
    requires p + w <= |b| && UIntAt(b, p, w) == mask && s == DecodeBits(rules, mask, 0, b, p + w) && s.stop.None?
    ensures Decode(Flags(w, rules), b, p) == Good(Fields(mask, s.entries, []), s.pos, s.warnings)
  {}

  lemma ByteHere(n: Byte, rest: Buffer, b: Buffer, p: nat)
    requires Lies(b, p, [n] + rest)
    ensures p + 1 <= |b| && UIntAt(b, p, 1) == n as nat && Lies(b, p + 1, rest)
  {
    LiesByte(b, p, n, rest);
    WordReads(b, p);
  }

  lemma {:induction false} FlagsRead(tables: Tables, t: Table, rules: seq<Rule>, m: Byte, mask: nat,
                                     fields: seq<Sent>, b: Buffer, p: nat, end: nat)
    requires (t.SatelliteBits? || t.SensorBits?) && AllAgree(tables) && Agrees(t, rules, tables)
    requires mask == m as nat && FieldsFrom(t, mask, 0, fields)
    requires Lies(b, p, [m] + BytesOf(fields)) && end == p + 1 + |BytesOf(fields)|
    ensures Decode(Flags(1, rules), b, p) == Good(Fields(mask, EntriesOf(fields), []), end, [])
    decreases 0, 3, 0
  {
    ByteHere(m, BytesOf(fields), b, p);
    FieldsRead(tables, t, rules, mask, 0, fields, b, p + 1);
    InnerQuiet(t, mask, 0, fields);
    FlagsFrom(1, rules, mask, ScanOf(t, mask, 0, fields, p + 1), b, p);
  }

  /** Two items in a row. */
  lemma PairReads(x: Shape, y: Shape, u: Value, v: Value, b: Buffer, p: nat, mid: nat, end: nat)
    requires p <= |b| && mid <= |b| && Decode(x, b, p) == Good(u, mid, []) && Decode(y, b, mid) == Good(v, end, [])
    ensures Decode(Tuple([x, y]), b, p) == Good(Items([u, v]), end, [])
  {
    DecodeCons(y, [], b, mid);
    DecodeCons(x, [y] + [], b, p);
    assert [x] + ([y] + []) == [x, y];
    assert [u] + ([v] + []) == [u, v];
  }

  lemma IdReads(id: Buffer, b: Buffer, p: nat)
    requires |id| == 8 && Lies(b, p, id)
    ensures p + 8 <= |b| && Decode(Raw(8), b, p) == Good(Bytes(id), p + 8, [])
  {
    SliceHeld(b, p, id, 0, 8);
    assert id[0..8] == id && b[p + 0..p + 0 + 8] == b[p..p + 8];
  }

  lemma {:induction false} SensorReads(tables: Tables, rules: seq<Rule>, s: Sensor, b: Buffer, p: nat, end: nat)
    requires AllAgree(tables) && Agrees(SensorBits, rules, tables) && IsSensor(s)
    requires Lies(b, p, SensorPart(s)) && end == p + |SensorPart(s)|
    ensures Decode(Tuple([Raw(8), Flags(1, rules)]), b, p) == Good(SensorValue(s), end, [])
    decreases 0, 4, 0
  {
    LiesSplit(b, p, s.id, [s.mask] + BytesOf(s.readings));
    FlagsRead(tables, SensorBits, rules, s.mask, s.mask as nat, s.readings, b, p + 8, end);
    IdReads(s.id, b, p);
    PairReads(Raw(8), Flags(1, rules), Bytes(s.id), Fields(s.mask as nat, EntriesOf(s.readings), []), b, p, p + 8, end);
  }

  /** The first sensor is read, and the others lie behind it. */
  lemma {:induction false} SensorHere(tables: Tables, rules: seq<Rule>, sensors: seq<Sensor>, b: Buffer, p: nat)
    returns (s: Sensor, more: seq<Sensor>, q: nat)
    requires AllAgree(tables) && Agrees(SensorBits, rules, tables) && sensors != []
    requires (forall s :: s in sensors ==> IsSensor(s)) && Lies(b, p, SensorBytes(sensors))
    ensures sensors == [s] + more && forall s :: s in more ==> IsSensor(s)
    ensures q == p + |SensorPart(s)| <= |b| && Lies(b, q, SensorBytes(more))
    ensures Decode(Tuple([Raw(8), Flags(1, rules)]), b, p) == Good(SensorValue(s), q, [])
    decreases 0, 5, 0
  {
    s, more := sensors[0], sensors[1..];
    q := p + |SensorPart(s)|;
    assert s in sensors;
    LiesSplit(b, p, SensorPart(s), SensorBytes(more));
    SensorReads(tables, rules, s, b, p, q);
  }

  lemma SensorCons(s: Sensor, more: seq<Sensor>)
    ensures SensorBytes([s] + more) == SensorPart(s) + SensorBytes(more)
    ensures SensorValues([s] + more) == [SensorValue(s)] + SensorValues(more)
  {
    assert ([s] + more)[1..] == more;
  }

  lemma {:induction false} SensorListReads(tables: Tables, rules: seq<Rule>, sensors: seq<Sensor>, b: Buffer, p: nat)
    requires AllAgree(tables) && Agrees(SensorBits, rules, tables)
    requires (forall s :: s in sensors ==> IsSensor(s)) && Lies(b, p, SensorBytes(sensors))
    ensures DecodeList(Tuple([Raw(8), Flags(1, rules)]), |sensors|, b, p) ==
            Many(SensorValues(sensors), true, p + |SensorBytes(sensors)|, [])
    decreases 0, 6, |sensors|
  {
    if sensors != [] {
      var s, more, q := SensorHere(tables, rules, sensors, b, p);
      SensorListReads(tables, rules, more, b, q);
      SensorListCons(Tuple([Raw(8), Flags(1, rules)]), s, more, b, p, q);
    }
  }

  lemma SensorListCons(item: Shape, s: Sensor, more: seq<Sensor>, b: Buffer, p: nat, q: nat)
    requires q == p + |SensorPart(s)| <= |b| && Decode(item, b, p) == Good(SensorValue(s), q, [])
    requires DecodeList(item, |more|, b, q) == Many(SensorValues(more), true, q + |SensorBytes(more)|, [])
    ensures DecodeList(item, |more| + 1, b, p) ==
            Many(SensorValues([s] + more), true, p + |SensorBytes([s] + more)|, [])
  {
    ItemReads(item, |more| + 1, SensorValue(s), SensorValues(more), b, p, q, q + |SensorBytes(more)|);
    SensorCons(s, more);
  }

  lemma {:induction false} SensorsRead(tables: Tables, e: Buffer, v: Value, ws: seq<Warning>, b: Buffer, p: nat)
    requires AllAgree(tables) && Means(Sensors, e, v, ws) && Lies(b, p, e)
    ensures Decode(ShapeOf(Sensors, tables), b, p) == Good(v, p + |e|, ws)
    decreases 0, 7, 0
  {
    var sensors :| SensorsSent(sensors, e, v);
    LiesByte(b, p, |sensors| as Byte, SensorBytes(sensors));
    SensorListReads(tables, tables(SensorBits), sensors, b, p + 1);
    CountedFrom(Tuple([Raw(8), Flags(1, tables(SensorBits))]), true, SensorValues(sensors), p + |e|, b, p);
  }

  lemma {:induction false} SatellitesRead(tables: Tables, e: Buffer, v: Value, ws: seq<Warning>, b: Buffer, p: nat)
    requires AllAgree(tables) && Means(Satellites, e, v, ws) && Lies(b, p, e)
    ensures Decode(ShapeOf(Satellites, tables), b, p) == Good(v, p + |e|, ws)
    decreases 0, 4, 0
  {
    var mask, counts :| SatellitesSent(mask, counts, e, v);
    FlagsRead(tables, SatelliteBits, tables(SatelliteBits), mask, mask as nat, counts, b, p, p + |e|);
  }

  /** One record more in front of the others. */
  lemma RecordReads(rules: seq<Rule>, mask: nat, n: nat, f: Scan, more: seq<Value>, b: Buffer, p: nat, end: nat)
    requires n > 0 && p <= |b| && f == DecodeBits(rules, mask, 0, b, p) && f.stop.None? && f.warnings == []
    requires DecodeRecords(rules, mask, n - 1, b, f.pos) == Many(more, true, end, [])
    ensures DecodeRecords(rules, mask, n, b, p) == Many([Fields(mask, f.entries, [])] + more, true, end, [])
  {}

  lemma {:induction false} FixScans(tables: Tables, rules: seq<Rule>, mask: nat, x: seq<Sent>, b: Buffer, p: nat,
                                    q: nat)
    requires AllAgree(tables) && Agrees(FixBits, rules, tables) && FieldsFrom(FixBits, mask, 0, x)
    requires Lies(b, p, BytesOf(x)) && q == p + |BytesOf(x)|
    ensures DecodeBits(rules, mask, 0, b, p) == Scan(EntriesOf(x), [], None, q, [])
    decreases 1, 3, 0
  {
    FieldsRead(tables, FixBits, rules, mask, 0, x, b, p);
    InnerQuiet(FixBits, mask, 0, x);
  }

  /** The fixes behind the first one lie behind its bytes. */
  lemma FixesBehind(fixes: seq<seq<Sent>>, b: Buffer, p: nat)
    returns (x: seq<Sent>, more: seq<seq<Sent>>, q: nat)
    requires fixes != [] && Lies(b, p, FixBytes(fixes))
    ensures fixes == [x] + more
    ensures q == p + |BytesOf(x)| <= |b| && Lies(b, p, BytesOf(x)) && Lies(b, q, FixBytes(more))
  {
    x, more := fixes[0], fixes[1..];
    q := p + |BytesOf(x)|;
    LiesSplit(b, p, BytesOf(x), FixBytes(more));
  }

  lemma FixCons(mask: nat, x: seq<Sent>, more: seq<seq<Sent>>)
    ensures FixBytes([x] + more) == BytesOf(x) + FixBytes(more)
    ensures FixValues(mask, [x] + more) == [Fields(mask, EntriesOf(x), [])] + FixValues(mask, more)
  {
    assert ([x] + more)[1..] == more;
  }

  lemma {:induction false} FixListReads(tables: Tables, rules: seq<Rule>, mask: nat, fixes: seq<seq<Sent>>, b: Buffer,
                                        p: nat)
    requires AllAgree(tables) && Agrees(FixBits, rules, tables)
    requires (forall x :: x in fixes ==> FieldsFrom(FixBits, mask, 0, x)) && Lies(b, p, FixBytes(fixes))
    ensures DecodeRecords(rules, mask, |fixes|, b, p) ==
            Many(FixValues(mask, fixes), true, p + |FixBytes(fixes)|, [])
    decreases 1, 4, |fixes|
  {
    if fixes != [] {
      var x, more, q := FixesBehind(fixes, b, p);
      assert x in fixes && forall y :: y in more ==> y in fixes;
      FixScans(tables, rules, mask, x, b, p, q);
      FixListReads(tables, rules, mask, more, b, q);
      RecordReads(rules, mask, |fixes|, Scan(EntriesOf(x), [], None, q, []), FixValues(mask, more), b, p,
                  q + |FixBytes(more)|);
      FixCons(mask, x, more);
    }
  }

  /** A mask, a count byte and the records behind them. */
  lemma RepeatedFrom(rules: seq<Rule>, mask: nat, vs: seq<Value>, end: nat, b: Buffer, p: nat)
    requires p + 2 < |b| && UIntAt(b, p, 2) == mask && b[p + 2] as nat == |vs|
    requires DecodeRecords(rules, mask, |vs|, b, p + 3) == Many(vs, true, end, [])
    ensures Decode(Repeated(2, rules), b, p) == Good(Records(mask, vs), end, [])
  {}

  lemma {:induction false} FixesRead(tables: Tables, e: Buffer, v: Value, ws: seq<Warning>, b: Buffer, p: nat)
    requires AllAgree(tables) && Means(Fixes, e, v, ws) && Lies(b, p, e)
    ensures Decode(ShapeOf(Fixes, tables), b, p) == Good(v, p + |e|, ws)
    decreases 1, 5, 0
  {
    var word, fixes :| FixesSent(word, fixes, e, v);
    LiesSplit(b, p, word, [|fixes| as Byte] + FixBytes(fixes));
    WordsHeld(b, p, word, 0);
    WordReads(b, p);
    LiesByte(b, p + 2, |fixes| as Byte, FixBytes(fixes));
    FixListReads(tables, tables(FixBits), W2(word, 0), fixes, b, p + 3);
    RepeatedFrom(tables(FixBits), W2(word, 0), FixValues(W2(word, 0), fixes), p + |e|, b, p);
  }

  /** A block's mask and the scan of its fields. */
  lemma BlockFrom(kind: BlockKind, rules: seq<Rule>, mask: nat, s: Scan, b: Buffer, p: nat)
    requires p + 4 <= |b| && UIntAt(b, p, 4) == mask && s == DecodeBits(rules, mask, 0, b, p + 4) && s.stop.None?
    ensures Decode(Block(kind, rules), b, p) ==
            Good(Fields(mask, s.entries, s.unsupported), s.pos,
                 s.warnings + if s.unsupported == [] then [] else [NotDecoded(kind, s.unsupported)])
  {}

  lemma WordHere(word: Buffer, rest: Buffer, b: Buffer, p: nat)
    requires |word| == 4 && Lies(b, p, word + rest)
    ensures p + 4 <= |b| && UIntAt(b, p, 4) == W4(word, 0) && Lies(b, p + 4, rest)
  {
    LiesSplit(b, p, word, rest);
    WordsHeld(b, p, word, 0);
    WordReads(b, p);
  }

  lemma {:induction false} BlockReads(tables: Tables, t: Table, rules: seq<Rule>, word: Buffer, fields: seq<Sent>,
                                      e: Buffer, v: Value, ws: seq<Warning>, b: Buffer, p: nat)
    requires AllAgree(tables) && Agrees(t, rules, tables)
    requires BlockSent(t, word, fields, e, v, ws) && Lies(b, p, e)
    ensures Decode(Block(KindOf(t), rules), b, p) == Good(v, p + |e|, ws)
    decreases Rank(t), 4, 0
  {
    var mask, s := BlockScans(tables, t, rules, word, fields, e, v, ws, b, p);
    BlockFrom(KindOf(t), rules, mask, s, b, p);
  }

  lemma {:induction false} BlockScans(tables: Tables, t: Table, rules: seq<Rule>, word: Buffer, fields: seq<Sent>,
                                      e: Buffer, v: Value, ws: seq<Warning>, b: Buffer, p: nat)
    returns (mask: nat, s: Scan)
    requires AllAgree(tables) && Agrees(t, rules, tables)
    requires BlockSent(t, word, fields, e, v, ws) && Lies(b, p, e)
    ensures p + 4 <= |b| && UIntAt(b, p, 4) == mask && s == DecodeBits(rules, mask, 0, b, p + 4)
    ensures v == Fields(mask, s.entries, s.unsupported) && s.pos == p + |e| && s.stop == None
    ensures ws == s.warnings + if s.unsupported == [] then [] else [NotDecoded(KindOf(t), s.unsupported)]
    decreases Rank(t), 3, 0
  {
    mask, s := BlockStart(t, word, fields, e, v, ws, b, p);
    FieldsRead(tables, t, rules, mask, 0, fields, b, p + 4);
  }

  /** A block's mask, and the scan that its fields should give. */
  lemma BlockStart(t: Table, word: Buffer, fields: seq<Sent>, e: Buffer, v: Value, ws: seq<Warning>, b: Buffer, p: nat)
    returns (mask: nat, s: Scan)
    requires BlockSent(t, word, fields, e, v, ws) && Lies(b, p, e)
    ensures p + 4 <= |b| && UIntAt(b, p, 4) == mask && FieldsFrom(t, mask, 0, fields)
    ensures Lies(b, p + 4, BytesOf(fields)) && s == ScanOf(t, mask, 0, fields, p + 4)
    ensures v == Fields(mask, s.entries, s.unsupported) && s.pos == p + |e| && s.stop == None
    ensures ws == s.warnings + if s.unsupported == [] then [] else [NotDecoded(KindOf(t), s.unsupported)]
  {
    mask := W4(word, 0);
    WordHere(word, BytesOf(fields), b, p);
    s := ScanOf(t, mask, 0, fields, p + 4);
  }

  lemma {:induction false} NestedReads(tables: Tables, t: Table, e: Buffer, v: Value, ws: seq<Warning>, b: Buffer,
                                       p: nat)
    requires AllAgree(tables) && Means(Nested(t), e, v, ws) && Lies(b, p, e)
    ensures Decode(ShapeOf(Nested(t), tables), b, p) == Good(v, p + |e|, ws)
    decreases Rank(t), 5, 0
  {
    var word, fields :| BlockSent(t, word, fields, e, v, ws);
    BlockReads(tables, t, tables(t), word, fields, e, v, ws, b, p);
  }
}
