/**
 * The report decoder as the service writes it: loops over mask bits that read
 * from a cursor, fill a payload and push warnings. Each method is proved to
 * refine the schema semantics of the block it reads.
 */
module ReportParser {
  import opened Bytes
  import opened Wrappers
  import opened BufferCursors
  import opened Schema
  import opened Truncation
  import opened ReportLayout
  import opened FieldReader
  import opened BlockSwitches

  /** The `warnings` array the decoders share. */
  class WarningLog {
    var items: seq<Warning>

    constructor ()
      ensures items == []
    {
      items := [];
    }

    method Push(w: Warning)
      modifies this
      ensures items == old(items) + [w]
    {
      items := items + [w];
    }
  }

  // ------------------------------------------------------------------
  // Mask blocks
  // ------------------------------------------------------------------

  function RuleOf(kind: BlockKind, bit: nat): (r: Rule) {
    match kind
    case DataMask => ReportRule(bit)
    case EventDataMask => EventDataRule(bit)
    case CanInfoMask1 => CanInfo1Rule(bit)
    case CanInfoMask2 => CanInfo2Rule(bit)
    case ElectricInfoMask1 => ElectricInfo1Rule(bit)
    case CanInfoMask3 => CanInfo3Rule(bit)
    case CanAdvancedInfoMask1 => CanAdvancedRule(bit)
  }

  method ReadBlockField(cursor: BufferCursor, kind: BlockKind, bit: nat) returns (o: FieldRead)
    requires cursor.Valid() && bit < 32 && kind != DataMask
    modifies cursor`offset
    ensures cursor.Valid() && Does(RuleOf(kind, bit), cursor.buf, old(cursor.offset), o, cursor.offset)
  {
    match kind
    case EventDataMask => o := ReadEventDataField(cursor, bit);
    case CanInfoMask1 => o := ReadCanInfo1Field(cursor, bit);
    case CanInfoMask2 => o := ReadCanInfo2Field(cursor, bit);
    case ElectricInfoMask1 => o := ReadElectricInfo1Field(cursor, bit);
    case CanInfoMask3 => o := ReadCanInfo3Field(cursor, bit);
    case CanAdvancedInfoMask1 => o := ReadPrefixed(cursor, false);
  }

  function RulesOf(kind: BlockKind): (r: seq<Rule>)
    ensures |r| == 32 && forall i :: 0 <= i < 32 ==> r[i] == RuleOf(kind, i)
    ensures kind != DataMask ==> PlainRules(r)
  {
    match kind
    case DataMask => ReportRules()
    case EventDataMask => EventDataRules()
    case CanInfoMask1 => CanInfo1Rules()
    case CanInfoMask2 => CanInfo2Rules()
    case ElectricInfoMask1 => ElectricInfo1Rules()
    case CanInfoMask3 => CanInfo3Rules()
    case CanAdvancedInfoMask1 => CanAdvancedRules()
  }

  /** How one field read moves a mask loop from `s` to `t`, and the loop's own variables with it. */
  lemma FieldReadSteps(rules: seq<Rule>, mask: nat, bit: nat, b: Buffer, p: nat, s: Scan, log: seq<Warning>,
                       o: FieldRead, after: nat)
    requires Resumes(rules, mask, bit, b, p, s) && bit < |rules| && Bit(mask, bit)
    requires Does(rules[bit], b, s.pos, o, after)
    ensures var t := StepBit(rules, mask, bit, b, s);
            && t.pos == after
            && t.entries == s.entries + Kept(bit, StoredBy(o))
            && t.unsupported == s.unsupported + (if o.Unknown? then [bit] else [])
            && log + t.warnings == (log + s.warnings) + RuleWarnings(rules[bit], b, s.pos)
            && if o.Threw? then t.stop == Some(bit) && DecodeBits(rules, mask, 0, b, p) == t
               else Resumes(rules, mask, bit + 1, b, p, t)
  {
    Steps(rules, mask, bit, b, p, s);
    assert s.entries + [] == s.entries && s.unsupported + [] == s.unsupported && s.warnings + [] == s.warnings;
  }

  function StoredBy(o: FieldRead): Option<Value> {
    match o
    case Stored(v) => Some(v)
    case Threw(partial) => partial
    case _ => None
  }

  function RuleWarnings(rule: Rule, b: Buffer, p: nat): seq<Warning>
    requires p <= |b|
  {
    if rule.Field? then Decode(rule.shape, b, p).warnings else []
  }

  function Depth(kind: BlockKind): nat {
    if kind == DataMask then 1 else 0
  }

  /** A mask loop and the warning about the bits it could not decode. */
  method ScanMask(cursor: BufferCursor, kind: BlockKind, mask: nat, warnings: WarningLog, ghost rules: seq<Rule>)
    returns (entries: seq<Entry>, unsupportedBits: seq<nat>)
    requires cursor.Valid() && |rules| == 32 && forall i :: 0 <= i < 32 ==> rules[i] == RuleOf(kind, i)
    modifies cursor`offset, warnings
    ensures cursor.Valid()
    ensures var d := DecodeBits(rules, mask, 0, cursor.buf, old(cursor.offset));
            && cursor.offset == d.pos && entries == d.entries && unsupportedBits == d.unsupported
            && warnings.items == old(warnings.items) + (d.warnings + BlockWarnings(kind, d))
    decreases Depth(kind), 4
  {
    ghost var s;
    entries, unsupportedBits, s := ScanBits(cursor, kind, mask, warnings, rules);
    if |unsupportedBits| > 0 {
      warnings.Push(NotDecoded(kind, unsupportedBits));
    }
    assert warnings.items == old(warnings.items) + (s.warnings + BlockWarnings(kind, s));
  }

  function StopWarning(kind: BlockKind, s: Scan): seq<Warning> {
    if s.stop.Some? then [Stopped(kind, s.stop.value)] else []
  }

  /** Bits 0 to 31, one field each; a throw is caught, reported, and ends the loop. */
  method ScanBits(cursor: BufferCursor, kind: BlockKind, mask: nat, warnings: WarningLog, ghost rules: seq<Rule>)
    returns (entries: seq<Entry>, unsupportedBits: seq<nat>, ghost s: Scan)
    requires cursor.Valid() && |rules| == 32 && forall i :: 0 <= i < 32 ==> rules[i] == RuleOf(kind, i)
    modifies cursor`offset, warnings
    ensures cursor.Valid() && s == DecodeBits(rules, mask, 0, cursor.buf, old(cursor.offset))
    ensures cursor.offset == s.pos && entries == s.entries && unsupportedBits == s.unsupported
    ensures warnings.items == old(warnings.items) + s.warnings + StopWarning(kind, s)
    decreases Depth(kind), 3
  {
    ghost var b, p, log := cursor.buf, cursor.offset, warnings.items;
    s := Start(p);
    Starts(rules, mask, b, p);
    var bit := 0;
    entries, unsupportedBits := [], [];
    while bit < 32
      invariant bit <= 32 && cursor.Valid() && cursor.offset == s.pos
      invariant Resumes(rules, mask, bit, b, p, s)
      invariant entries == s.entries && unsupportedBits == s.unsupported
      invariant warnings.items == log + s.warnings
    {
      if Bit(mask, bit) {
        var o := ReadMaskField(cursor, kind, bit, warnings);
        FieldReadSteps(rules, mask, bit, b, p, s, log, o, cursor.offset);
        entries := entries + Kept(bit, StoredBy(o));
        unsupportedBits := unsupportedBits + if o.Unknown? then [bit] else [];
        s := StepBit(rules, mask, bit, b, s);
        if o.Threw? {
          warnings.Push(Stopped(kind, bit));
          return;
        }
      } else {
        Steps(rules, mask, bit, b, p, s);
      }
      bit := bit + 1;
    }
    Finishes(rules, mask, b, p, s);
  }

  /** One `case` of the loop over `kind`'s mask. */
  method ReadMaskField(cursor: BufferCursor, kind: BlockKind, bit: nat, warnings: WarningLog) returns (o: FieldRead)
    requires cursor.Valid() && bit < 32
    modifies cursor`offset, warnings
    ensures cursor.Valid() && Does(RuleOf(kind, bit), cursor.buf, old(cursor.offset), o, cursor.offset)
    ensures warnings.items == old(warnings.items) + RuleWarnings(RuleOf(kind, bit), cursor.buf, old(cursor.offset))
    decreases Depth(kind), 2
  {
    if kind == DataMask {
      o := ReadReportField(cursor, bit, warnings, ReportRule(bit));
    } else {
      QuietRule(RuleOf(kind, bit), cursor.buf, cursor.offset);
      o := ReadBlockField(cursor, kind, bit);
    }
  }

  lemma QuietRule(rule: Rule, b: Buffer, p: nat)
    requires p <= |b| && (rule.Field? ==> Plain(rule.shape))
    ensures RuleWarnings(rule, b, p) == []
  {
    if rule.Field? {
      PlainQuiet(rule.shape, b, p);
    }
  }

  /** A nested block: its mask, then its own loop. */
  method ParseBlock(cursor: BufferCursor, kind: BlockKind, warnings: WarningLog) returns (o: FieldRead)
    requires cursor.Valid() && kind != DataMask
    modifies cursor`offset, warnings
    ensures cursor.Valid() && Reads(Block(kind, RulesOf(kind)), cursor.buf, old(cursor.offset), o, cursor.offset)
    ensures warnings.items ==
            old(warnings.items) + Decode(Block(kind, RulesOf(kind)), cursor.buf, old(cursor.offset)).warnings
    decreases 0, 5
  {
    ghost var rules := RulesOf(kind);
    var mask := cursor.ReadUInt(4);
    if mask.Failure? {
      return Threw(None);
    }
    var entries, unsupportedBits := ScanMask(cursor, kind, mask.value, warnings, rules);
    o := Stored(Fields(mask.value, entries, unsupportedBits));
  }

  /** The block behind a Data Mask bit, if it has one. */
  function NestedKind(bit: nat): (r: Option<BlockKind>)
    ensures r.Some? ==> r.value != DataMask
  {
    match bit
    case 8 => Some(EventDataMask)
    case 9 => Some(CanInfoMask1)
    case 10 => Some(CanInfoMask2)
    case 11 => Some(ElectricInfoMask1)
    case 23 => Some(CanInfoMask3)
    case 24 => Some(CanAdvancedInfoMask1)
    case _ => None
  }

  lemma NestedKindIs(bit: nat, rule: Rule)
    requires rule == ReportRule(bit) && 8 <= bit < 32
    ensures match NestedKind(bit)
            case Some(kind) => rule.Field? && rule.shape == Block(kind, RulesOf(kind))
            case None => rule.Unsupported?
  {}

  /** The switch over Data Mask bits. */
  method ReadReportField(cursor: BufferCursor, bit: nat, warnings: WarningLog, ghost rule: Rule) returns (o: FieldRead)
    requires cursor.Valid() && bit < 32 && rule == ReportRule(bit)
    modifies cursor`offset, warnings
    ensures cursor.Valid() && Does(rule, cursor.buf, old(cursor.offset), o, cursor.offset)
    ensures warnings.items == old(warnings.items) + RuleWarnings(rule, cursor.buf, old(cursor.offset))
    decreases 1, 1
  {
    if bit < 8 {
      QuietRule(rule, cursor.buf, cursor.offset);
      ghost var fix, satellites := GnssFixRules(), SatelliteRules();
      PlainRuleIs(bit, rule, fix);
      GnssFixIs(fix, satellites);
      o := ReadPlainReportField(cursor, bit, rule, fix, satellites);
      return;
    }
    NestedKindIs(bit, rule);
    match NestedKind(bit)
    case Some(kind) => o := ParseBlock(cursor, kind, warnings);
    case None => o := Unknown;
  }

  /** A `case` that reads one field of a known shape. */
  method ReadField(cursor: BufferCursor, shape: Shape, ghost rule: Rule) returns (o: FieldRead)
    requires cursor.Valid() && Simple(shape) && rule.Field? && rule.shape == shape
    modifies cursor`offset
    ensures cursor.Valid() && Does(rule, cursor.buf, old(cursor.offset), o, cursor.offset)
  {
    o := ReadShape(cursor, shape);
  }

  /** What the first eight Data Mask bits announce. */
  ghost predicate PlainLayout(bit: nat, rule: Rule, fix: seq<Rule>) {
    && (bit == 5 || bit == 6 ==> rule.Reserved?)
    && (bit != 5 && bit != 6 ==> rule.Field?)
    && (bit == 0 ==> rule.shape == Tuple([U8, U8]))
    && (bit == 1 ==> rule.shape == U8)
    && (bit == 2 ==> rule.shape == Tuple([U16, U8]))
    && (bit == 3 ==> rule.shape == Repeated(2, fix))
    && (bit == 4 ==> rule.shape == Tuple([U16, U16, U16, U32, U8]))
    && (bit == 7 ==> rule.shape == Tuple([U8, Skip(2)]))
  }

  lemma PlainRuleIs(bit: nat, rule: Rule, fix: seq<Rule>)
    requires bit < 8 && rule == ReportRule(bit) && fix == GnssFixRules()
    ensures PlainLayout(bit, rule, fix)
  {}

  lemma GnssFixIs(fix: seq<Rule>, satellites: seq<Rule>)
    requires fix == GnssFixRules() && satellites == SatelliteRules()
    ensures GnssLayout(fix, satellites)
  {}

  method ReadPlainReportField(cursor: BufferCursor, bit: nat, ghost rule: Rule, ghost fix: seq<Rule>,
                              ghost satellites: seq<Rule>)
    returns (o: FieldRead)
    requires cursor.Valid() && bit < 8 && PlainLayout(bit, rule, fix) && GnssLayout(fix, satellites)
    modifies cursor`offset
    ensures cursor.Valid() && Does(rule, cursor.buf, old(cursor.offset), o, cursor.offset)
  {
    match bit
    case 0 => o := ReadField(cursor, Tuple([U8, U8]), rule);
    case 1 => o := ReadField(cursor, U8, rule);
    case 2 => o := ReadField(cursor, Tuple([U16, U8]), rule);
    case 3 => o := ParseGnssBlock(cursor, fix, satellites);
    case 4 => o := ReadField(cursor, Tuple([U16, U16, U16, U32, U8]), rule);
    case 5 => o := Nothing;
    case 6 => o := Nothing;
    case 7 => o := ReadField(cursor, Tuple([U8, Skip(2)]), rule);
  }

  method ParseReportDataZone(dataZone: Buffer, warnings: WarningLog) returns (r: Result<Value, Truncated>)
    modifies warnings
    ensures var d := Decode(ReportShape(), dataZone, 0);
            && (r.Success? <==> d.Good?)
            && (r.Success? ==> r.value == d.value)
            && warnings.items == old(warnings.items) + d.warnings
  {
    var cursor := new BufferCursor(dataZone);
    ReportUnfolds(ReportRules(), dataZone);
    var version :- cursor.ReadBytes(2);
    var eventType :- cursor.ReadUInt(1);
    var eventState :- cursor.ReadUInt(1);
    var dataMask :- cursor.ReadUInt(4);
    var entries, unsupportedDataMaskBits := ScanMask(cursor, DataMask, dataMask, warnings, ReportRules());
    r := Success(Items([Bytes(version), Num(eventType), Num(eventState),
                        Fields(dataMask, entries, unsupportedDataMaskBits)]));
  }
}
