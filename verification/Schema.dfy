/**
 * What the report decoder reads, as data. A `Shape` says how one field lies on
 * the wire; `Decode` and `Encode` are the reference semantics the imperative
 * decoder is proved against. All values are raw integers, before scaling.
 */
module Schema {
  import opened Bytes
  import opened Wrappers

  datatype BlockKind =
    | DataMask | EventDataMask | CanInfoMask1 | CanInfoMask2 | ElectricInfoMask1 | CanInfoMask3 | CanAdvancedInfoMask1

  datatype Warning =
    | Stopped(kind: BlockKind, bit: nat)
    | NotDecoded(kind: BlockKind, bits: seq<nat>)

  datatype Rule = Unsupported | Reserved | Field(name: string, shape: Shape)

  datatype Shape =
    | UInt(width: nat)
    | SInt(width: nat)
    | Raw(width: nat)
    | Skip(width: nat)                              // bytes read and dropped
    | Blob                                          // 1-byte length, then that many bytes
    | Ascii                                         // the same, decoded as 7-bit ASCII
    | Tuple(items: seq<Shape>)
    | Counted(item: Shape, keepsPartial: bool)      // 1-byte count, then that many items
    | Flags(width: nat, rules: seq<Rule>)           // mask, then its fields; a failed read is not caught
    | Repeated(width: nat, rules: seq<Rule>)        // mask, 1-byte count, then records sharing the mask
    | Block(kind: BlockKind, rules: seq<Rule>)      // 4-byte mask, then its fields; a failed read is caught

  datatype Entry = Entry(bit: nat, value: Value)

  datatype Value =
    | Num(n: int)
    | Bytes(bytes: Buffer)
    | Gap
    | Items(values: seq<Value>)
    | Fields(mask: nat, entries: seq<Entry>, unsupported: seq<nat>)
    | Records(mask: nat, records: seq<Value>)

  /** `mask & (1 << i)`. */
  predicate Bit(mask: nat, i: nat) {
    if i == 0 then mask % 2 == 1 else Bit(mask / 2, i - 1)
  }

  /** `buffer.toString('ascii')` clears the high bit of each byte. */
  function AsciiOf(bytes: Buffer): (r: Buffer)
    ensures |r| == |bytes| && forall i :: 0 <= i < |r| ==> r[i] < 128
    ensures (forall i :: 0 <= i < |bytes| ==> bytes[i] < 128) ==> r == bytes
  {
    seq(|bytes|, i requires 0 <= i < |bytes| => bytes[i] % 128)
  }

  // ------------------------------------------------------------------
  // Decoding
  // ------------------------------------------------------------------

  /** `Cut` is a thrown truncation error; `partial` is what the field had already stored. */
  datatype Outcome =
    | Good(value: Value, pos: nat, warnings: seq<Warning>)
    | Cut(partial: Option<Value>, pos: nat, warnings: seq<Warning>)

  datatype Many = Many(values: seq<Value>, done: bool, pos: nat, warnings: seq<Warning>)

  datatype Scan = Scan(entries: seq<Entry>, unsupported: seq<nat>, stop: Option<nat>, pos: nat, warnings: seq<Warning>)

  function Decode(s: Shape, b: Buffer, p: nat): (r: Outcome)
    requires p <= |b|
    ensures p <= r.pos <= |b|
    decreases s, 0, 0
  {
    match s
    case UInt(w) => if |b| - p < w then Cut(None, p, []) else Good(Num(UIntAt(b, p, w)), p + w, [])
    case SInt(w) => if |b| - p < w then Cut(None, p, []) else Good(Num(SIntAt(b, p, w)), p + w, [])
    case Raw(w) => if |b| - p < w then Cut(None, p, []) else Good(Bytes(b[p..p + w]), p + w, [])
    case Skip(w) => if |b| - p < w then Cut(None, p, []) else Good(Gap, p + w, [])
    case Blob =>
      if |b| == p then Cut(None, p, [])
      else if |b| - p - 1 < b[p] as nat then Cut(None, p + 1, [])
      else Good(Bytes(b[p + 1..p + 1 + b[p] as nat]), p + 1 + b[p] as nat, [])
    case Ascii =>
      if |b| == p then Cut(None, p, [])
      else if |b| - p - 1 < b[p] as nat then Cut(None, p + 1, [])
      else Good(Bytes(AsciiOf(b[p + 1..p + 1 + b[p] as nat])), p + 1 + b[p] as nat, [])
    case Tuple(items) =>
      var r := DecodeAll(items, b, p);
      if r.done then Good(Items(r.values), r.pos, r.warnings) else Cut(None, r.pos, r.warnings)
    case Counted(item, keeps) =>
      if |b| == p then Cut(None, p, [])
      else
        var r := DecodeList(item, b[p] as nat, b, p + 1);
        if r.done then Good(Items(r.values), r.pos, r.warnings)
        else Cut(if keeps then Some(Items(r.values)) else None, r.pos, r.warnings)
    case Flags(w, rules) =>
      if |b| - p < w then Cut(None, p, [])
      else
        var r := DecodeBits(rules, UIntAt(b, p, w), 0, b, p + w);
        if r.stop.None? then Good(Fields(UIntAt(b, p, w), r.entries, []), r.pos, r.warnings)
        else Cut(None, r.pos, r.warnings)
    case Repeated(w, rules) =>
      if |b| - p < w then Cut(None, p, [])
      else if |b| == p + w then Cut(None, p + w, [])
      else
        var r := DecodeRecords(rules, UIntAt(b, p, w), b[p + w] as nat, b, p + w + 1);
        if r.done then Good(Records(UIntAt(b, p, w), r.values), r.pos, r.warnings)
        else Cut(None, r.pos, r.warnings)
    case Block(kind, rules) =>
      if |b| - p < 4 then Cut(None, p, [])
      else
        var mask := UIntAt(b, p, 4);
        var r := DecodeBits(rules, mask, 0, b, p + 4);
        Good(Fields(mask, r.entries, r.unsupported), r.pos, r.warnings + BlockWarnings(kind, r))
  }

  function BlockWarnings(kind: BlockKind, r: Scan): seq<Warning> {
    (if r.stop.Some? then [Stopped(kind, r.stop.value)] else []) +
    (if r.unsupported != [] then [NotDecoded(kind, r.unsupported)] else [])
  }

  function DecodeAll(items: seq<Shape>, b: Buffer, p: nat): (r: Many)
    requires p <= |b|
    ensures p <= r.pos <= |b|
    decreases items, 0, 0
  {
    if items == [] then Many([], true, p, [])
    else
      match Decode(items[0], b, p)
      case Cut(_, q, ws) => Many([], false, q, ws)
      case Good(v, q, ws) =>
        var r := DecodeAll(items[1..], b, q);
        r.(values := [v] + r.values, warnings := ws + r.warnings)
  }

  function DecodeList(item: Shape, n: nat, b: Buffer, p: nat): (r: Many)
    requires p <= |b|
    ensures p <= r.pos <= |b|
    decreases item, 1, n
  {
    if n == 0 then Many([], true, p, [])
    else
      match Decode(item, b, p)
      case Cut(_, q, ws) => Many([], false, q, ws)
      case Good(v, q, ws) =>
        var r := DecodeList(item, n - 1, b, q);
        r.(values := [v] + r.values, warnings := ws + r.warnings)
  }

  function DecodeRecords(rules: seq<Rule>, mask: nat, n: nat, b: Buffer, p: nat): (r: Many)
    requires p <= |b|
    ensures p <= r.pos <= |b|
    decreases rules, 1, n
  {
    if n == 0 then Many([], true, p, [])
    else
      var f := DecodeBits(rules, mask, 0, b, p);
      if f.stop.Some? then Many([], false, f.pos, f.warnings)
      else
        var r := DecodeRecords(rules, mask, n - 1, b, f.pos);
        r.(values := [Fields(mask, f.entries, [])] + r.values, warnings := f.warnings + r.warnings)
  }

  /** The bits from `bit` on, lowest first; the first failed read stops the scan. */
  function DecodeBits(rules: seq<Rule>, mask: nat, bit: nat, b: Buffer, p: nat): (r: Scan)
    requires p <= |b| && bit <= |rules|
    ensures p <= r.pos <= |b|
    decreases rules, 0, |rules| - bit
  {
    if bit == |rules| then Scan([], [], None, p, [])
    else if !Bit(mask, bit) then DecodeBits(rules, mask, bit + 1, b, p)
    else
      match rules[bit]
      case Reserved => DecodeBits(rules, mask, bit + 1, b, p)
      case Unsupported =>
        var r := DecodeBits(rules, mask, bit + 1, b, p);
        r.(unsupported := [bit] + r.unsupported)
      case Field(_, shape) =>
        match Decode(shape, b, p)
        case Cut(partial, q, ws) => Scan(Kept(bit, partial), [], Some(bit), q, ws)
        case Good(v, q, ws) =>
          var r := DecodeBits(rules, mask, bit + 1, b, q);
          r.(entries := [Entry(bit, v)] + r.entries, warnings := ws + r.warnings)
  }

  function Kept(bit: nat, partial: Option<Value>): seq<Entry> {
    match partial
    case None => []
    case Some(v) => [Entry(bit, v)]
  }

  /** A first item's outcome, followed by the rest of a tuple. */
  function ThenAll(d: Outcome, rest: seq<Shape>, b: Buffer): Many
    requires d.pos <= |b|
  {
    if d.Cut? then Many([], false, d.pos, d.warnings)
    else
      var r := DecodeAll(rest, b, d.pos);
      Many([d.value] + r.values, r.done, r.pos, d.warnings + r.warnings)
  }

  lemma DecodeCons(x: Shape, rest: seq<Shape>, b: Buffer, p: nat)
    requires p <= |b|
    ensures DecodeAll([x] + rest, b, p) == ThenAll(Decode(x, b, p), rest, b)
  {
    assert ([x] + rest)[1..] == rest;
  }

  // ------------------------------------------------------------------
  // Encoding
  // ------------------------------------------------------------------

  /** The values a device can send in this shape using supported bits only. */
  ghost predicate Fits(s: Shape, v: Value)
    decreases s, 0, 0
  {
    match s
    case UInt(w) => v.Num? && 0 <= v.n < Pow256(w)
    case SInt(w) => v.Num? && 0 <= 2 * v.n + Pow256(w) < 2 * Pow256(w)
    case Raw(w) => v.Bytes? && |v.bytes| == w
    case Skip(_) => v.Gap?
    case Blob => v.Bytes? && |v.bytes| < 256
    case Ascii => v.Bytes? && |v.bytes| < 256 && forall i :: 0 <= i < |v.bytes| ==> v.bytes[i] < 128
    case Tuple(items) => v.Items? && FitsAll(items, v.values)
    case Counted(item, _) => v.Items? && |v.values| < 256 && FitsList(item, v.values)
    case Flags(w, rules) =>
      v.Fields? && v.mask < Pow256(w) && v.unsupported == [] && FitsBits(rules, v.mask, 0, v.entries)
    case Repeated(w, rules) =>
      v.Records? && v.mask < Pow256(w) && |v.records| < 256 && FitsRecords(rules, v.mask, v.records)
    case Block(_, rules) =>
      v.Fields? && v.mask < Pow256(4) && v.unsupported == [] && FitsBits(rules, v.mask, 0, v.entries)
  }

  ghost predicate FitsAll(items: seq<Shape>, vs: seq<Value>)
    decreases items, 0, 0
  {
    if items == [] then vs == []
    else vs != [] && Fits(items[0], vs[0]) && FitsAll(items[1..], vs[1..])
  }

  ghost predicate FitsList(item: Shape, vs: seq<Value>)
    decreases item, 1, |vs|
  {
    vs == [] || (Fits(item, vs[0]) && FitsList(item, vs[1..]))
  }

  ghost predicate FitsRecords(rules: seq<Rule>, mask: nat, vs: seq<Value>)
    decreases rules, 1, |vs|
  {
    vs == [] ||
    (vs[0].Fields? && vs[0].mask == mask && vs[0].unsupported == [] &&
     FitsBits(rules, mask, 0, vs[0].entries) && FitsRecords(rules, mask, vs[1..]))
  }

  /** The entries are exactly the set bits that carry a field, lowest first. */
  ghost predicate FitsBits(rules: seq<Rule>, mask: nat, bit: nat, entries: seq<Entry>)
    requires bit <= |rules|
    decreases rules, 0, |rules| - bit
  {
    if bit == |rules| then entries == []
    else if !Bit(mask, bit) then FitsBits(rules, mask, bit + 1, entries)
    else
      match rules[bit]
      case Reserved => FitsBits(rules, mask, bit + 1, entries)
      case Unsupported => false
      case Field(_, shape) =>
        entries != [] && entries[0].bit == bit && Fits(shape, entries[0].value) &&
        FitsBits(rules, mask, bit + 1, entries[1..])
  }

  ghost function Encode(s: Shape, v: Value): Buffer
    requires Fits(s, v)
    decreases s, 0, 0
  {
    match s
    case UInt(w) => UIntBytes(v.n, w)
    case SInt(w) => SIntBytes(v.n, w)
    case Raw(_) => v.bytes
    case Skip(w) => seq(w, _ => 0 as Byte)
    case Blob => [|v.bytes| as Byte] + v.bytes
    case Ascii => [|v.bytes| as Byte] + v.bytes
    case Tuple(items) => EncodeAll(items, v.values)
    case Counted(item, _) => [|v.values| as Byte] + EncodeList(item, v.values)
    case Flags(w, rules) => UIntBytes(v.mask, w) + EncodeBits(rules, v.mask, 0, v.entries)
    case Repeated(w, rules) => UIntBytes(v.mask, w) + ([|v.records| as Byte] + EncodeRecords(rules, v.mask, v.records))
    case Block(_, rules) => UIntBytes(v.mask, 4) + EncodeBits(rules, v.mask, 0, v.entries)
  }

  ghost function EncodeAll(items: seq<Shape>, vs: seq<Value>): Buffer
    requires FitsAll(items, vs)
    decreases items, 0, 0
  {
    if items == [] then [] else Encode(items[0], vs[0]) + EncodeAll(items[1..], vs[1..])
  }

  ghost function EncodeList(item: Shape, vs: seq<Value>): Buffer
    requires FitsList(item, vs)
    decreases item, 1, |vs|
  {
    if vs == [] then [] else Encode(item, vs[0]) + EncodeList(item, vs[1..])
  }

  ghost function EncodeRecords(rules: seq<Rule>, mask: nat, vs: seq<Value>): Buffer
    requires FitsRecords(rules, mask, vs)
    decreases rules, 1, |vs|
  {
    if vs == [] then [] else EncodeBits(rules, mask, 0, vs[0].entries) + EncodeRecords(rules, mask, vs[1..])
  }

  ghost function EncodeBits(rules: seq<Rule>, mask: nat, bit: nat, entries: seq<Entry>): Buffer
    requires bit <= |rules| && FitsBits(rules, mask, bit, entries)
    decreases rules, 0, |rules| - bit
  {
    if bit == |rules| then []
    else if !Bit(mask, bit) || rules[bit].Reserved? then EncodeBits(rules, mask, bit + 1, entries)
    else Encode(rules[bit].shape, entries[0].value) + EncodeBits(rules, mask, bit + 1, entries[1..])
  }

  // ------------------------------------------------------------------
  // Decoding inverts encoding
  // ------------------------------------------------------------------

  /** `b` holds `e` at `p`. */
  ghost predicate Holds(b: Buffer, p: nat, e: Buffer) {
    p + |e| <= |b| && b[p..p + |e|] == e
  }

  lemma HoldsSplit(b: Buffer, p: nat, x: Buffer, y: Buffer)
    requires Holds(b, p, x + y)
    ensures Holds(b, p, x) && Holds(b, p + |x|, y)
  {
    assert b[p..p + |x|] == b[p..p + |x + y|][..|x|];
    assert b[p + |x|..p + |x + y|] == b[p..p + |x + y|][|x|..];
  }

  lemma HoldsByte(b: Buffer, p: nat, n: nat, y: Buffer)
    requires n < 256 && Holds(b, p, [n as Byte] + y)
    ensures p < |b| && b[p] as nat == n && Holds(b, p + 1, y)
  {
    HoldsSplit(b, p, [n as Byte], y);
    assert b[p..p + 1][0] == n as Byte;
  }

  lemma HoldsMaskAndCount(b: Buffer, p: nat, mask: nat, w: nat, n: nat, y: Buffer)
    requires mask < Pow256(w) && n < 256 && Holds(b, p, UIntBytes(mask, w) + ([n as Byte] + y))
    ensures p + w < |b| && UIntAt(b, p, w) == mask && b[p + w] as nat == n && Holds(b, p + w + 1, y)
  {
    HoldsSplit(b, p, UIntBytes(mask, w), [n as Byte] + y);
    UIntRoundTrip(mask, w, b, p);
    HoldsByte(b, p + w, n, y);
  }

  /**
   * Decoder inverts encoder, for every shape: the same value comes back, without
   * warnings, and the cursor stops exactly where the encoding ends.
   */
  lemma {:induction false} RoundTrip(s: Shape, v: Value, b: Buffer, p: nat)
    requires Fits(s, v) && Holds(b, p, Encode(s, v))
    ensures Decode(s, b, p) == Good(v, p + |Encode(s, v)|, [])
    decreases s, 0, 0
  {
    match s
    case Tuple(items) => RoundTripAll(items, v.values, b, p);
    case Counted(item, keeps) => RoundTripCounted(item, keeps, v, b, p);
    case Flags(w, rules) => RoundTripMasked(rules, w, v, b, p);
    case Repeated(w, rules) => RoundTripRepeated(w, rules, v, b, p);
    case Block(_, rules) => RoundTripMasked(rules, 4, v, b, p);
    case _ => RoundTripScalar(s, v, b, p);
  }

  lemma {:induction false} RoundTripCounted(item: Shape, keeps: bool, v: Value, b: Buffer, p: nat)
    requires Fits(Counted(item, keeps), v) && Holds(b, p, Encode(Counted(item, keeps), v))
    ensures Decode(Counted(item, keeps), b, p) == Good(v, p + |Encode(Counted(item, keeps), v)|, [])
    decreases item, 2, 0
  {
    HoldsByte(b, p, |v.values|, EncodeList(item, v.values));
    RoundTripList(item, v.values, b, p + 1);
  }

  lemma RoundTripScalar(s: Shape, v: Value, b: Buffer, p: nat)
    requires s.UInt? || s.SInt? || s.Raw? || s.Skip? || s.Blob? || s.Ascii?
    requires Fits(s, v) && Holds(b, p, Encode(s, v))
    ensures Decode(s, b, p) == Good(v, p + |Encode(s, v)|, [])
  {
    match s
    case UInt(w) => UIntRoundTrip(v.n, w, b, p);
    case SInt(w) => SIntRoundTrip(v.n, w, b, p);
    case Blob => HoldsByte(b, p, |v.bytes|, v.bytes);
    case Ascii => HoldsByte(b, p, |v.bytes|, v.bytes);
    case _ =>
  }

  lemma {:induction false} RoundTripRepeated(w: nat, rules: seq<Rule>, v: Value, b: Buffer, p: nat)
    requires Fits(Repeated(w, rules), v) && Holds(b, p, Encode(Repeated(w, rules), v))
    ensures Decode(Repeated(w, rules), b, p) == Good(v, p + |Encode(Repeated(w, rules), v)|, [])
    decreases rules, 2, 0
  {
    HoldsMaskAndCount(b, p, v.mask, w, |v.records|, EncodeRecords(rules, v.mask, v.records));
    RoundTripRecords(rules, v.mask, v.records, b, p + w + 1);
  }

  lemma {:induction false} RoundTripMasked(rules: seq<Rule>, w: nat, v: Value, b: Buffer, p: nat)
    requires v.Fields? && v.mask < Pow256(w) && FitsBits(rules, v.mask, 0, v.entries)
    requires Holds(b, p, UIntBytes(v.mask, w) + EncodeBits(rules, v.mask, 0, v.entries))
    ensures p + w <= |b| && UIntAt(b, p, w) == v.mask
    ensures DecodeBits(rules, v.mask, 0, b, p + w) ==
            Scan(v.entries, [], None, p + w + |EncodeBits(rules, v.mask, 0, v.entries)|, [])
    decreases rules, 0, |rules| + 1
  {
    HoldsSplit(b, p, UIntBytes(v.mask, w), EncodeBits(rules, v.mask, 0, v.entries));
    UIntRoundTrip(v.mask, w, b, p);
    RoundTripBits(rules, v.mask, 0, v.entries, b, p + w);
  }

  lemma {:induction false} RoundTripAll(items: seq<Shape>, vs: seq<Value>, b: Buffer, p: nat)
    requires FitsAll(items, vs) && Holds(b, p, EncodeAll(items, vs))
    ensures DecodeAll(items, b, p) == Many(vs, true, p + |EncodeAll(items, vs)|, [])
    decreases items, 0, 0
  {
    if items != [] {
      HoldsSplit(b, p, Encode(items[0], vs[0]), EncodeAll(items[1..], vs[1..]));
      RoundTrip(items[0], vs[0], b, p);
      RoundTripAll(items[1..], vs[1..], b, p + |Encode(items[0], vs[0])|);
      AllGoOn(items, vs, b, p, p + |Encode(items[0], vs[0])|, p + |EncodeAll(items, vs)|);
    }
  }

  lemma AllGoOn(items: seq<Shape>, vs: seq<Value>, b: Buffer, p: nat, q: nat, end: nat)
    requires items != [] && vs != [] && p <= |b| && q <= |b|
    requires Decode(items[0], b, p) == Good(vs[0], q, [])
    requires DecodeAll(items[1..], b, q) == Many(vs[1..], true, end, [])
    ensures DecodeAll(items, b, p) == Many(vs, true, end, [])
  {
    assert vs == [vs[0]] + vs[1..];
  }

  lemma {:induction false} RoundTripList(item: Shape, vs: seq<Value>, b: Buffer, p: nat)
    requires FitsList(item, vs) && Holds(b, p, EncodeList(item, vs))
    ensures DecodeList(item, |vs|, b, p) == Many(vs, true, p + |EncodeList(item, vs)|, [])
    decreases item, 1, |vs|
  {
    if vs != [] {
      var more := vs[1..];
      var q := HoldsItem(item, vs, b, p);
      RoundTrip(item, vs[0], b, p);
      RoundTripList(item, more, b, q);
      ListGoesOn(item, vs, b, p, q, p + |EncodeList(item, vs)|);
    }
  }

  lemma HoldsItem(item: Shape, vs: seq<Value>, b: Buffer, p: nat) returns (q: nat)
    requires vs != [] && FitsList(item, vs) && Holds(b, p, EncodeList(item, vs))
    ensures q == p + |Encode(item, vs[0])| && q + |EncodeList(item, vs[1..])| == p + |EncodeList(item, vs)|
    ensures Holds(b, p, Encode(item, vs[0])) && Holds(b, q, EncodeList(item, vs[1..]))
  {
    q := p + |Encode(item, vs[0])|;
    HoldsSplit(b, p, Encode(item, vs[0]), EncodeList(item, vs[1..]));
  }

  lemma ListGoesOn(item: Shape, vs: seq<Value>, b: Buffer, p: nat, q: nat, end: nat)
    requires vs != [] && p <= |b| && q <= |b|
    requires Decode(item, b, p) == Good(vs[0], q, [])
    requires DecodeList(item, |vs| - 1, b, q) == Many(vs[1..], true, end, [])
    ensures DecodeList(item, |vs|, b, p) == Many(vs, true, end, [])
  {
    assert vs == [vs[0]] + vs[1..];
  }

  lemma {:induction false} RoundTripRecords(rules: seq<Rule>, mask: nat, vs: seq<Value>, b: Buffer, p: nat)
    requires FitsRecords(rules, mask, vs) && Holds(b, p, EncodeRecords(rules, mask, vs))
    ensures DecodeRecords(rules, mask, |vs|, b, p) == Many(vs, true, p + |EncodeRecords(rules, mask, vs)|, [])
    decreases rules, 1, |vs|
  {
    if vs != [] {
      var e, es := EncodeBits(rules, mask, 0, vs[0].entries), EncodeRecords(rules, mask, vs[1..]);
      assert EncodeRecords(rules, mask, vs) == e + es;
      HoldsSplit(b, p, e, es);
      RoundTripBits(rules, mask, 0, vs[0].entries, b, p);
      RoundTripRecords(rules, mask, vs[1..], b, p + |e|);
      assert vs == [vs[0]] + vs[1..];
    }
  }

  lemma {:induction false} RoundTripBits(rules: seq<Rule>, mask: nat, bit: nat, entries: seq<Entry>, b: Buffer, p: nat)
    requires bit <= |rules| && FitsBits(rules, mask, bit, entries)
    requires Holds(b, p, EncodeBits(rules, mask, bit, entries))
    ensures DecodeBits(rules, mask, bit, b, p) ==
            Scan(entries, [], None, p + |EncodeBits(rules, mask, bit, entries)|, [])
    decreases rules, 0, |rules| - bit
  {
    if bit < |rules| {
      if !Bit(mask, bit) || rules[bit].Reserved? {
        RoundTripBits(rules, mask, bit + 1, entries, b, p);
      } else {
        var e := Encode(rules[bit].shape, entries[0].value);
        HoldsSplit(b, p, e, EncodeBits(rules, mask, bit + 1, entries[1..]));
        RoundTrip(rules[bit].shape, entries[0].value, b, p);
        RoundTripBits(rules, mask, bit + 1, entries[1..], b, p + |e|);
        assert entries == [entries[0]] + entries[1..];
      }
    }
  }
}
