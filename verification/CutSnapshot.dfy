/** The device snapshot under truncation: a cut report never puts a wrong value into it. */
module CutSnapshot {
  import opened Bytes
  import opened Wrappers
  import opened Schema
  import opened Truncation
  import opened ReportLayout
  import opened ReportTheorems
  import opened DeviceStore
  import AsciiZone
  import FrameParser

  lemma {:induction false} EntriesFrom(rules: seq<Rule>, mask: nat, bit: nat, b: Buffer, p: nat)
    requires p <= |b| && bit <= |rules|
    ensures forall e :: e in DecodeBits(rules, mask, bit, b, p).entries ==> bit <= e.bit < |rules|
    decreases |rules| - bit
  {
    if bit < |rules| {
      if Bit(mask, bit) && rules[bit].Field? {
        EntriesFrom(rules, mask, bit + 1, b, Decode(rules[bit].shape, b, p).pos);
      } else {
        EntriesFrom(rules, mask, bit + 1, b, p);
      }
    }
  }

  lemma {:induction false} FindAppend(a: seq<Entry>, b: seq<Entry>, bit: nat)
    ensures Find(a + b, bit) == if Find(a, bit).Some? then Find(a, bit) else Find(b, bit)
  {
    if a == [] {
      assert a + b == b;
    } else {
      Uncons(a, b);
      FindAppend(a[1..], b, bit);
    }
  }

  lemma {:induction false} FindNothing(entries: seq<Entry>, bit: nat)
    requires forall e :: e in entries ==> e.bit != bit
    ensures Find(entries, bit) == None
  {
    if entries != [] {
      FindNothing(entries[1..], bit);
    }
  }

  /** A field of a cut zone is missing or the whole zone's. */
  ghost predicate MissingOr(cut: Option<Value>, whole: Option<Value>) {
    cut.None? || cut == whole
  }

  /** Behind the entries they share, a cut and a whole scan differ only in what the snapshot does not read. */
  lemma CutTails(field: nat, bit: nat, before: seq<Entry>, cut: seq<Entry>, whole: seq<Entry>)
    requires field < 8 && (bit < 8 ==> cut == [])
    requires forall e :: e in cut || e in whole ==> e.bit >= bit
    ensures MissingOr(Find(before + cut, field), Find(before + whole, field))
  {
    FindAppend(before, cut, field);
    FindAppend(before, whole, field);
    FindNothing(cut, field);
    if bit >= 8 {
      FindNothing(whole, field);
    }
  }

  lemma CutFind(field: nat, zone: Buffer, k: nat)
    requires field < 8 && HEADER_BYTES <= k <= |zone|
    ensures MissingOr(Find(ScanReport(MaskOf(zone[..k]), 0, zone[..k], HEADER_BYTES).entries, field),
                      Find(ScanReport(MaskOf(zone), 0, zone, HEADER_BYTES).entries, field))
  {
    if ScanReport(MaskOf(zone), 0, zone, HEADER_BYTES).pos <= k {
      UncutReport(zone, k);
    } else {
      var c := TruncatedReport(zone, k);
      CutFindAt(ReportRules(), field, c, MaskOf(zone), zone, k);
    }
  }

  lemma CutFindAt(rules: seq<Rule>, field: nat, c: CutPoint, mask: nat, zone: Buffer, k: nat)
    requires field < 8 && HEADER_BYTES <= k <= |zone|
    requires CutsAt(c, rules, mask, 0, zone, HEADER_BYTES, k)
    requires c.bit < 8 ==> DecodeBits(rules, mask, 0, zone[..k], HEADER_BYTES).entries == c.before
    ensures MissingOr(Find(DecodeBits(rules, mask, 0, zone[..k], HEADER_BYTES).entries, field),
                      Find(DecodeBits(rules, mask, 0, zone, HEADER_BYTES).entries, field))
  {
    var cut := DecodeBits(rules, mask, c.bit, zone[..k], c.at).entries;
    var whole := DecodeBits(rules, mask, c.bit, zone, c.at).entries;
    EntriesFrom(rules, mask, c.bit, zone[..k], c.at);
    EntriesFrom(rules, mask, c.bit, zone, c.at);
    if c.bit < 8 {
      assert |c.before + cut| == |c.before|;
    }
    CutTails(field, c.bit, c.before, cut, whole);
  }

  /** The report a frame's data zone gives, from the zone itself. */
  lemma ReportInZone(number: AsciiZone.Numbers, zone: Buffer, parsed: FrameParser.ParsedFrame, now: Time)
    requires FrameParser.IsReport(parsed.kind) && parsed.body == FrameParser.ParseBody(number, parsed.kind, zone).0
    requires |zone| >= HEADER_BYTES
    ensures ReportIn(parsed, now) ==
            Some(ReportOf(parsed.header, parsed.kind, UIntAt(zone, 2, 1),
                          ScanReport(MaskOf(zone), 0, zone, HEADER_BYTES).entries, now))
  {
    ReportUnfolds(ReportRules(), zone);
  }

  /** A snapshot column of a cut report is missing or the whole report's. */
  ghost predicate NoWrongColumn(cut: Report, whole: Report) {
    forall c :: IsSnapshot(c) ==> CarriedValue(cut, c).None? || CarriedValue(cut, c) == CarriedValue(whole, c)
  }

  lemma FieldsDecide(header: FrameParser.Header, other: FrameParser.Header, kind: FrameParser.Kind, eventType: int,
                     cut: seq<Entry>, whole: seq<Entry>, now: Time)
    requires header.imei == other.imei && header.generatedAt == other.generatedAt
    requires MissingOr(Find(cut, 1), Find(whole, 1))
    requires MissingOr(Find(cut, 2), Find(whole, 2))
    requires MissingOr(Find(cut, 3), Find(whole, 3))
    ensures NoWrongColumn(ReportOf(header, kind, eventType, cut, now), ReportOf(other, kind, eventType, whole, now))
  {}

  /**
   * Cutting a report's data zone anywhere behind its header: every snapshot column that the cut
   * report still carries has the value the whole report carries, phantom blocks or not.
   */
  lemma CutReportNeverWrong(number: AsciiZone.Numbers, zone: Buffer, k: nat, whole: FrameParser.ParsedFrame,
                            cut: FrameParser.ParsedFrame, now: Time)
    requires HEADER_BYTES <= k <= |zone| && FrameParser.IsReport(whole.kind) && cut.kind == whole.kind
    requires cut.header.imei == whole.header.imei && cut.header.generatedAt == whole.header.generatedAt
    requires whole.body == FrameParser.ParseBody(number, whole.kind, zone).0
    requires cut.body == FrameParser.ParseBody(number, cut.kind, zone[..k]).0
    ensures ReportIn(cut, now).Some? && ReportIn(whole, now).Some?
    ensures NoWrongColumn(ReportIn(cut, now).value, ReportIn(whole, now).value)
  {
    CutFind(1, zone, k);
    CutFind(2, zone, k);
    CutFind(3, zone, k);
    ReportInZone(number, zone, whole, now);
    ReportInZone(number, zone[..k], cut, now);
    UIntAtLocal(zone[..k], zone, 2, 1);
    FieldsDecide(cut.header, whole.header, whole.kind, UIntAt(zone, 2, 1),
                 ScanReport(MaskOf(zone[..k]), 0, zone[..k], HEADER_BYTES).entries,
                 ScanReport(MaskOf(zone), 0, zone, HEADER_BYTES).entries, now);
  }
}
