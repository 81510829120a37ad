/** A truncated report zone that decodes to a field the device never sent. */
module PhantomField {
  import opened Bytes
  import opened Wrappers
  import opened Schema
  import opened ReportLayout
  import opened ReportTheorems

  lemma {:induction false} SkipBits(rules: seq<Rule>, mask: nat, lo: nat, hi: nat, b: Buffer, p: nat)
    requires lo <= hi <= |rules| && p <= |b| && forall i :: lo <= i < hi ==> !Bit(mask, i)
    ensures DecodeBits(rules, mask, lo, b, p) == DecodeBits(rules, mask, hi, b, p)
    decreases hi - lo
  {
    if lo < hi {
      SkipBits(rules, mask, lo + 1, hi, b, p);
    }
  }

  function Pow2(n: nat): nat {
    if n == 0 then 1 else 2 * Pow2(n - 1)
  }

  lemma {:induction false} HighBitsClear(mask: nat, n: nat, i: nat)
    requires mask < Pow2(n) && i >= n
    ensures !Bit(mask, i)
    decreases i
  {
    if i > 0 {
      HighBitsClear(mask / 2, if n == 0 then 0 else n - 1, i - 1);
    }
  }

  /** `k` is the only bit of `Pow2(k)`. */
  lemma {:induction false} SingleBit(k: nat, i: nat)
    ensures Bit(Pow2(k), i) <==> i == k
    decreases i
  {
    if i == 0 {
      assert k > 0 ==> Pow2(k) % 2 == 0;
    } else if k == 0 {
      HighBitsClear(Pow2(0) / 2, 0, i - 1);
    } else {
      assert Pow2(k) / 2 == Pow2(k - 1);
      SingleBit(k - 1, i - 1);
    }
  }

  /** The scan of a mask whose only bit is `k`. */
  lemma SingleField(rules: seq<Rule>, k: nat, b: Buffer, p: nat)
    requires k < |rules| && p <= |b| && rules[k].Field?
    ensures var d, r := Decode(rules[k].shape, b, p), DecodeBits(rules, Pow2(k), 0, b, p);
            && r.pos == d.pos && r.unsupported == []
            && (d.Good? ==> r.entries == [Entry(k, d.value)])
            && (d.Cut? ==> r.entries == Kept(k, d.partial))
  {
    forall i | 0 <= i < |rules|
      ensures Bit(Pow2(k), i) <==> i == k
    {
      SingleBit(k, i);
    }
    SkipBits(rules, Pow2(k), 0, k, b, p);
    SkipBits(rules, Pow2(k), k + 1, |rules|, b, Decode(rules[k].shape, b, p).pos);
  }

  lemma EmptyMask(rules: seq<Rule>, b: Buffer, p: nat)
    requires p <= |b|
    ensures DecodeBits(rules, 0, 0, b, p) == Scan([], [], None, p, [])
  {
    forall i | 0 <= i < |rules|
      ensures !Bit(0, i)
    {
      HighBitsClear(0, 0, i);
    }
    SkipBits(rules, 0, 0, |rules|, b, p);
  }

  /** The scan of the Data Mask with bits 8 and 9. */
  lemma TwoBlocks(rules: seq<Rule>, b: Buffer, p: nat)
    requires |rules| == 32 && p <= |b| && rules[8].Field? && rules[9].Field?
    ensures var d := Decode(rules[8].shape, b, p);
            d.Good? ==>
              var e := Decode(rules[9].shape, b, d.pos);
              e.Good? ==> DecodeBits(rules, 0x300, 0, b, p).entries == [Entry(8, d.value), Entry(9, e.value)]
  {
    assert Bit(0x300, 8) && Bit(0x300, 9);
    assert !Bit(0x300, 0) && !Bit(0x300, 1) && !Bit(0x300, 2) && !Bit(0x300, 3);
    assert !Bit(0x300, 4) && !Bit(0x300, 5) && !Bit(0x300, 6) && !Bit(0x300, 7);
    forall i | 10 <= i < 32
      ensures !Bit(0x300, i)
    {
      assert Pow2(10) == 1024;
      HighBitsClear(0x300, 10, i);
    }
    SkipBits(rules, 0x300, 0, 8, b, p);
    var d := Decode(rules[8].shape, b, p);
    if d.Good? {
      var e := Decode(rules[9].shape, b, d.pos);
      if e.Good? {
        SkipBits(rules, 0x300, 10, 32, b, e.pos);
      }
    }
  }

  lemma UIntOf(b: Buffer, p: nat, x: Byte, y: Byte, z: Byte, w: Byte)
    requires p + 4 <= |b| && b[p] == x && b[p + 1] == y && b[p + 2] == z && b[p + 3] == w
    ensures UIntAt(b, p, 4) == 256 * (256 * (256 * x as nat + y as nat) + z as nat) + w as nat
  {
    assert UIntAt(b, p, 0) == 0;
    assert UIntAt(b, p, 1) == x as nat;
    assert UIntAt(b, p, 2) == 256 * x as nat + y as nat;
    assert UIntAt(b, p, 3) == 256 * (256 * x as nat + y as nat) + z as nat;
  }

  /** A block with a single announced field. */
  lemma BlockOfOne(kind: BlockKind, rules: seq<Rule>, k: nat, b: Buffer, p: nat)
    requires k < |rules| && rules[k].Field? && p + 4 <= |b| && UIntAt(b, p, 4) == Pow2(k)
    ensures var d, r := Decode(rules[k].shape, b, p + 4), Decode(Block(kind, rules), b, p);
            && r.Good? && r.pos == d.pos
            && r.value == Fields(Pow2(k), if d.Good? then [Entry(k, d.value)] else Kept(k, d.partial), [])
  {
    SingleField(rules, k, b, p + 4);
  }

  lemma EmptyBlock(kind: BlockKind, rules: seq<Rule>, b: Buffer, p: nat)
    requires p + 4 <= |b| && UIntAt(b, p, 4) == 0
    ensures Decode(Block(kind, rules), b, p).Good? && Decode(Block(kind, rules), b, p).value == Fields(0, [], [])
  {
    EmptyMask(rules, b, p + 4);
  }

  /** Event data with six id bytes, then CAN info 1 with its ignition key. */
  ghost predicate IsWholeZone(b: Buffer) {
    && |b| == 24
    && b[4] == 0 && b[5] == 0 && b[6] == 3 && b[7] == 0
    && b[8] == 0 && b[9] == 0 && b[10] == 1 && b[11] == 0 && b[12] == 6
    && b[13] == b[14] == b[15] == b[16] == b[17] == b[18] == 0
    && b[19] == 0 && b[20] == 0 && b[21] == 0 && b[22] == 2 && b[23] == 5
  }

  lemma WholeZone() returns (zone: Buffer)
    ensures IsWholeZone(zone)
  {
    zone := [
      11, 1,  1, 0,  0, 0, 3, 0,              // version, event, Data Mask bits 8 and 9
      0, 0, 1, 0,  6,  0, 0, 0, 0, 0, 0,      // Event Data Mask bit 8: six id bytes
      0, 0, 0, 2,  5];                        // CAN Info Mask 1 bit 1: ignition key 5
  }

  lemma PhantomRules(rules: seq<Rule>, event: seq<Rule>, can: seq<Rule>)
    requires rules == ReportRules() && event == EventDataRules() && can == CanInfo1Rules()
    ensures PhantomLayout(rules, event, can)
  {
    assert rules[8] == ReportRule(8) && rules[9] == ReportRule(9) && event[8] == EventDataRule(8) &&
           can[1] == CanInfo1Rule(1);
  }

  /**
   * Cut inside its id bytes, the zone above decodes to event data without an id and to a CAN
   * block with mask 0, read from the id bytes; the device sent mask 2 and an ignition key.
   */
  lemma PhantomWitness() returns (zone: Buffer)
    ensures IsWholeZone(zone)
    ensures MaskOf(zone) == 0x300
    ensures ScanReport(MaskOf(zone), 0, zone[..17], HEADER_BYTES).entries ==
            [Entry(8, Fields(Pow2(8), [], [])), Entry(9, Fields(0, [], []))]
    ensures ScanReport(MaskOf(zone), 0, zone, HEADER_BYTES).entries ==
            [Entry(8, Fields(Pow2(8), [Entry(8, Bytes(zone[13..19]))], [])),
             Entry(9, Fields(Pow2(1), [Entry(1, Num(5))], []))]
  {
    zone := WholeZone();
    UIntOf(zone, 4, 0, 0, 3, 0);
    var rules, event, can := ReportRules(), EventDataRules(), CanInfo1Rules();
    PhantomRules(rules, event, can);
    CutScanned(rules, event, can, zone[..17]);
    WholeScanned(rules, event, can, zone);
  }

  ghost predicate PhantomLayout(rules: seq<Rule>, event: seq<Rule>, can: seq<Rule>) {
    && |rules| == 32 && rules[8].Field? && rules[8].shape == Block(EventDataMask, event)
    && rules[9].Field? && rules[9].shape == Block(CanInfoMask1, can)
    && |event| == 32 && event[8].Field? && event[8].shape == Blob
    && |can| == 32 && can[1].Field? && can[1].shape == UInt(1)
  }

  lemma CutScanned(rules: seq<Rule>, event: seq<Rule>, can: seq<Rule>, b: Buffer)
    requires PhantomLayout(rules, event, can) && |b| == 17
    requires b[8] == 0 && b[9] == 0 && b[10] == 1 && b[11] == 0 && b[12] == 6 && b[13] == b[14] == b[15] == b[16] == 0
    ensures DecodeBits(rules, 0x300, 0, b, 8).entries ==
            [Entry(8, Fields(Pow2(8), [], [])), Entry(9, Fields(0, [], []))]
  {
    UIntOf(b, 8, 0, 0, 1, 0);
    assert Pow2(8) == 256;
    BlockOfOne(EventDataMask, event, 8, b, 8);
    UIntOf(b, 13, 0, 0, 0, 0);
    EmptyBlock(CanInfoMask1, can, b, 13);
    TwoBlocks(rules, b, 8);
  }

  lemma WholeScanned(rules: seq<Rule>, event: seq<Rule>, can: seq<Rule>, b: Buffer)
    requires PhantomLayout(rules, event, can) && |b| == 24
    requires b[8] == 0 && b[9] == 0 && b[10] == 1 && b[11] == 0 && b[12] == 6
    requires b[19] == 0 && b[20] == 0 && b[21] == 0 && b[22] == 2 && b[23] == 5
    ensures DecodeBits(rules, 0x300, 0, b, 8).entries ==
            [Entry(8, Fields(Pow2(8), [Entry(8, Bytes(b[13..19]))], [])),
             Entry(9, Fields(Pow2(1), [Entry(1, Num(5))], []))]
  {
    UIntOf(b, 8, 0, 0, 1, 0);
    assert Pow2(8) == 256 && Pow2(1) == 2;
    BlockOfOne(EventDataMask, event, 8, b, 8);
    UIntOf(b, 19, 0, 0, 0, 2);
    assert UIntAt(b, 23, 0) == 0;
    BlockOfOne(CanInfoMask1, can, 1, b, 19);
    TwoBlocks(rules, b, 8);
  }
}
