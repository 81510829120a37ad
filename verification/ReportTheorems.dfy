/** What the schema theorems say about whole report data zones. */
module ReportTheorems {
  import opened Bytes
  import opened Schema
  import opened Truncation
  import opened ReportLayout

  /** The Data Mask of a zone that holds its 8-byte header. */
  function MaskOf(zone: Buffer): nat
    requires |zone| >= HEADER_BYTES
  {
    UIntAt(zone, 4, 4)
  }

  /** The Data Mask loop from `bit` on, with the cursor at `p`. */
  function ScanReport(mask: nat, bit: nat, zone: Buffer, p: nat): (r: Scan)
    requires bit <= 32 && p <= |zone|
    ensures p <= r.pos <= |zone|
  {
    DecodeBits(ReportRules(), mask, bit, zone, p)
  }

  // ------------------------------------------------------------------
  // Round trip
  // ------------------------------------------------------------------

  /** `buildReportDataZone`. */
  function BuildReportDataZone(version: Buffer, eventType: Byte, eventState: Byte, mask: nat, tail: Buffer): Buffer
    requires |version| == 2 && mask < Pow256(4)
  {
    version + [eventType] + [eventState] + UIntBytes(mask, 4) + tail
  }

  /** The report value with the given header, Data Mask and decoded bits. */
  function ReportValue(version: Buffer, eventType: Byte, eventState: Byte, mask: nat, entries: seq<Entry>): Value {
    Items([Bytes(version), Num(eventType as int), Num(eventState as int), Fields(mask, entries, [])])
  }

  /**
   * Every report built from supported bits, encoded lowest bit first behind the
   * header, decodes back to itself: no warnings, and the cursor at the very end.
   */
  lemma ReportRoundTrip(version: Buffer, eventType: Byte, eventState: Byte, mask: nat, entries: seq<Entry>)
    requires |version| == 2 && mask < Pow256(4) && FitsBits(ReportRules(), mask, 0, entries)
    ensures var zone := BuildReportDataZone(version, eventType, eventState, mask,
                                            EncodeBits(ReportRules(), mask, 0, entries));
            Decode(ReportShape(), zone, 0) ==
            Good(ReportValue(version, eventType, eventState, mask, entries), |zone|, [])
  {
    var rules := ReportRules();
    var tail := EncodeBits(rules, mask, 0, entries);
    var zone := BuildReportDataZone(version, eventType, eventState, mask, tail);
    ReportUnfolds(rules, zone);
    HeaderOfZone(version, eventType, eventState, mask, tail);
    RoundTripBits(rules, mask, 0, entries, zone, HEADER_BYTES);
  }

  lemma HeaderOfZone(version: Buffer, eventType: Byte, eventState: Byte, mask: nat, tail: Buffer)
    requires |version| == 2 && mask < Pow256(4)
    ensures var zone := BuildReportDataZone(version, eventType, eventState, mask, tail);
            && zone[0..2] == version
            && UIntAt(zone, 2, 1) == eventType as nat && UIntAt(zone, 3, 1) == eventState as nat
            && UIntAt(zone, 4, 4) == mask
            && Holds(zone, HEADER_BYTES, tail)
  {
    var zone := BuildReportDataZone(version, eventType, eventState, mask, tail);
    assert UIntAt(zone, 2, 0) == 0 && UIntAt(zone, 3, 0) == 0;
    assert zone[4..8] == UIntBytes(mask, 4);
    UIntRoundTrip(mask, 4, zone, 4);
  }

  // ------------------------------------------------------------------
  // Truncation
  // ------------------------------------------------------------------

  /**
   * Lockstep for the Data Mask loop: a zone whose reads all end within `k` decodes the same from its
   * first `k` bytes.
   */
  lemma UncutReport(zone: Buffer, k: nat)
    requires HEADER_BYTES <= k <= |zone| && ScanReport(MaskOf(zone), 0, zone, HEADER_BYTES).pos <= k
    ensures ScanReport(MaskOf(zone[..k]), 0, zone[..k], HEADER_BYTES) == ScanReport(MaskOf(zone), 0, zone, HEADER_BYTES)
  {
    SlicesAgree(zone, k, 4, 4);
    LockstepBits(ReportRules(), MaskOf(zone), 0, zone, HEADER_BYTES, k);
  }

  /**
   * Truncating any report zone behind its header, at any byte. All fields before
   * the cut one survive unchanged. A cut plain field is absent and ends the scan.
   * A cut nested block keeps its complete fields, and the scan goes on inside it:
   * what it then finds is garbage, non-empty exactly when another field bit is set
   * and the 4 bytes of a mask are left.
   */
  lemma TruncatedReport(zone: Buffer, k: nat) returns (c: CutPoint)
    requires HEADER_BYTES <= k <= |zone| && ScanReport(MaskOf(zone), 0, zone, HEADER_BYTES).pos > k
    ensures MaskOf(zone[..k]) == MaskOf(zone)
    ensures CutsAt(c, ReportRules(), MaskOf(zone), 0, zone, HEADER_BYTES, k)
    ensures c.bit < 8 ==> ScanReport(MaskOf(zone), 0, zone[..k], HEADER_BYTES).entries == c.before
    ensures c.bit >= 8 ==>
              && ReportRules()[c.bit].shape.Block?
              && BrokenBlock(ReportRules(), MaskOf(zone), c.bit, zone, c.at, k)
  {
    var rules := ReportRules();
    SlicesAgree(zone, k, 4, 4);
    c := FindCut(rules, MaskOf(zone), 0, zone, HEADER_BYTES, k);
    RuleKinds(rules, c.bit);
    if c.bit < 8 {
      PlainFieldCut(c, rules, MaskOf(zone), zone, k);
    } else {
      BlockCut(rules, MaskOf(zone), c.bit, zone, c.at, k);
    }
  }

  lemma RuleKinds(rules: seq<Rule>, bit: nat)
    requires rules == ReportRules() && bit < 32 && rules[bit].Field?
    ensures bit < 8 ==> Plain(rules[bit].shape) && !rules[bit].shape.Counted?
    ensures bit >= 8 ==> rules[bit].shape.Block? && OnlyBlocks(rules, bit)
  {}

  // ------------------------------------------------------------------
  // Where phantom blocks come from
  // ------------------------------------------------------------------

  /** Fields with a read wider than four bytes: prefixed bytes and text, 1-wire ids, hour meters. */
  predicate IsWide(block: nat, bit: nat) {
    match block
    case 8 => bit == 8 || bit == 9 || bit == 10
    case 9 => bit == 0
    case 10 => bit == 15 || bit == 18
    case 24 => true
    case _ => false
  }

  lemma WideEventData(rules: seq<Rule>, bit: nat)
    requires rules == EventDataRules() && bit < 32 && rules[bit].Field?
    ensures IsWide(8, bit) || Narrow(rules[bit].shape)
  {
    assert rules[bit] == EventDataRule(bit);
  }

  lemma NarrowTuples()
    ensures Narrow(Tuple([U8, U8])) && Narrow(Tuple([U16, U16])) && Narrow(Tuple([U8, U16, U24, U8]))
    ensures Narrow(Counted(Raw(3), false)) && Narrow(Counted(Tuple([U8, U16, U24, U8]), false))
  {}

  lemma WideCanInfo1(rules: seq<Rule>, bit: nat)
    requires rules == CanInfo1Rules() && bit < 32 && rules[bit].Field?
    ensures IsWide(9, bit) || Narrow(rules[bit].shape)
  {
    assert rules[bit] == CanInfo1Rule(bit);
    NarrowTuples();
    match bit
    case 8 => assert rules[bit].shape == Tuple([U16, U16]);
    case 9 => assert rules[bit].shape == Tuple([U8, U8]);
    case _ =>
  }

  lemma WideCanInfo2(rules: seq<Rule>, bit: nat)
    requires rules == CanInfo2Rules() && bit < 32 && rules[bit].Field?
    ensures IsWide(10, bit) || Narrow(rules[bit].shape)
  {
    assert rules[bit] == CanInfo2Rule(bit);
    NarrowTuples();
    match bit
    case 24 => assert rules[bit].shape == Counted(Raw(3), false);
    case 25 => assert rules[bit].shape == Tuple([U8, U8]);
    case 26 => assert rules[bit].shape == Tuple([U8, U8]);
    case 29 => assert rules[bit].shape == Counted(Tuple([U8, U16, U24, U8]), false);
    case _ =>
  }

  lemma WideElectricInfo1(rules: seq<Rule>, bit: nat)
    requires rules == ElectricInfo1Rules() && bit < 32 && rules[bit].Field?
    ensures Narrow(rules[bit].shape)
  {
    assert rules[bit] == ElectricInfo1Rule(bit);
  }

  lemma WideCanInfo3(rules: seq<Rule>, bit: nat)
    requires rules == CanInfo3Rules() && bit < 32 && rules[bit].Field?
    ensures Narrow(rules[bit].shape)
  {
    assert rules[bit] == CanInfo3Rule(bit);
  }

  lemma WideFields(block: nat, inner: seq<Rule>, bit: nat)
    requires 8 <= block < 32 && ReportRule(block).Field? && inner == ReportRule(block).shape.rules
    requires bit < |inner| && inner[bit].Field? && !Narrow(inner[bit].shape)
    ensures IsWide(block, bit)
  {
    match block
    case 8 => WideEventData(inner, bit);
    case 9 => WideCanInfo1(inner, bit);
    case 10 => WideCanInfo2(inner, bit);
    case 11 => WideElectricInfo1(inner, bit);
    case 23 => WideCanInfo3(inner, bit);
    case _ =>
  }

  /**
   * Phantom blocks, by layout: a cut zone shows a block behind the broken one only if the cut fell
   * into prefixed bytes or text, a 1-wire reading or an hour meter; never inside an Electric
   * Info 1 or CAN Info 3 block.
   */
  lemma PhantomsComeFromWideFields(zone: Buffer, k: nat, c: CutPoint)
    requires HEADER_BYTES <= k <= |zone|
    ensures ShowsPhantom(zone, k, c) ==>
              && c.bit != 11 && c.bit != 23
              && c.at + 4 <= k && ReportRules()[c.bit].shape.Block?
              && var stop := InnerScan(ReportRules()[c.bit].shape.rules, zone, c.at, k).stop;
              stop.Some? && IsWide(c.bit, stop.value)
  {
    if ShowsPhantom(zone, k, c) {
      var rules := ReportRules();
      RuleKinds(rules, c.bit);
      PhantomNeedsWideRead(rules, MaskOf(zone), c.bit, zone, c.at, k);
      var inner := rules[c.bit].shape.rules;
      WideFields(c.bit, inner, InnerScan(inner, zone, c.at, k).stop.value);
    }
  }

  /** The cut zone has an entry behind the block that the cut goes through. */
  ghost predicate ShowsPhantom(zone: Buffer, k: nat, c: CutPoint)
    requires HEADER_BYTES <= k <= |zone|
  {
    && CutsBlock(zone, k, c)
    && |ScanReport(MaskOf(zone), 0, zone[..k], HEADER_BYTES).entries| > |c.before| + 1
  }

  /** The cut goes through a nested block. */
  ghost predicate CutsBlock(zone: Buffer, k: nat, c: CutPoint)
    requires HEADER_BYTES <= k <= |zone|
  {
    CutsAt(c, ReportRules(), MaskOf(zone), 0, zone, HEADER_BYTES, k) && c.bit >= 8
  }

  /**
   * Phantom blocks in a report zone, exactly: they appear if and only if the cut comes four bytes or
   * more behind the start, in the whole zone, of the read it goes through, and a later field bit is set.
   */
  lemma PhantomsExactly(zone: Buffer, k: nat, c: CutPoint)
    requires HEADER_BYTES <= k <= |zone| && CutsBlock(zone, k, c)
    ensures ReportRules()[c.bit].shape.Block?
    ensures ShowsPhantom(zone, k, c) <==>
            LeavesMask(ReportRules()[c.bit].shape.rules, zone, c.at, k) &&
            MoreFields(ReportRules(), MaskOf(zone), c.bit + 1)
  {
    RuleKinds(ReportRules(), c.bit);
    PhantomExactly(ReportRules(), MaskOf(zone), c.bit, zone, c.at, k);
    SlicesAgree(zone, k, 4, 4);
  }
}
