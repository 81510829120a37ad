/** What a frame is parsed to, from its bytes: header, kind and data zone. */
module FrameContents {
  import opened Bytes
  import opened Commas
  import opened Wrappers
  import opened Schema
  import opened ReportLayout
  import opened ReportTheorems
  import opened WireFormat
  import opened WireReports
  import opened FrameParser
  import AsciiZone
  import PeoFences

  // ------------------------------------------------------------------
  // The header
  // ------------------------------------------------------------------

  /** A frame in its parts, with or without its terminator. */
  datatype Parts = Parts(head: Buffer, length: Buffer, imei: Buffer, deviceId: Byte, zone: Buffer, time: Buffer,
                         serial: Buffer, terminated: bool)

  /** The head token ends in the only colon of its at most eight bytes; IMEI bytes are pairs of digits. */
  predicate IsFrame(f: Parts) {
    && 0 < |f.head| <= 8 && f.head[|f.head| - 1] == 0x3A && (forall i :: 0 <= i < |f.head| - 1 ==> f.head[i] != 0x3A)
    && |f.length| == 2 && |f.imei| == 8 && |f.time| == 7 && |f.serial| == 2
    && (forall i :: 0 <= i < 7 ==> f.imei[i] < 100) && f.imei[7] < 10
    && (f.terminated || f.serial[1] != 0x23)
  }

  function FrameBytes(f: Parts): Buffer {
    f.head + f.length + f.imei + [f.deviceId] + f.zone + f.time + f.serial +
    (if f.terminated then [0x23] else [])
  }

  /** The 15 digits of an IMEI are two for each of seven bytes, and one for the eighth. */
  ghost predicate DigitsOf(imei: string, bytes: Buffer)
    requires |bytes| == 8
  {
    && |imei| == 15
    && (forall i :: 0 <= i < 7 ==>
          imei[2 * i] as int - '0' as int == bytes[i] as int / 10 &&
          imei[2 * i + 1] as int - '0' as int == bytes[i] as int % 10)
    && imei[14] as int - '0' as int == bytes[7] as int
  }

  lemma DigitCode(d: nat)
    requires d < 10
    ensures Digit(d) as int - '0' as int == d
  {}

  lemma {:induction false} PairsOfDigits(bytes: Buffer)
    requires forall i :: 0 <= i < |bytes| ==> bytes[i] < 100
    ensures var s := ImeiDigits(bytes);
            && |s| == 2 * |bytes|
            && forall i :: 0 <= i < |bytes| ==>
                 s[2 * i] as int - '0' as int == bytes[i] as int / 10 &&
                 s[2 * i + 1] as int - '0' as int == bytes[i] as int % 10
  {
    if bytes != [] {
      var n, more := bytes[0] as nat, bytes[1..];
      PairsOfDigits(more);
      DigitCode(n / 10);
      DigitCode(n % 10);
      var s, t := ImeiDigits(bytes), ImeiDigits(more);
      assert s == [Digit(n / 10), Digit(n % 10)] + t;
      forall i | 0 <= i < |bytes|
        ensures s[2 * i] as int - '0' as int == bytes[i] as int / 10
        ensures s[2 * i + 1] as int - '0' as int == bytes[i] as int % 10
      {
        if i > 0 {
          assert s[2 * i] == t[2 * (i - 1)] && s[2 * i + 1] == t[2 * (i - 1) + 1] && bytes[i] == more[i - 1];
        }
      }
    }
  }

  lemma ImeiOnWire(bytes: Buffer)
    requires |bytes| == 8 && (forall i :: 0 <= i < 7 ==> bytes[i] < 100) && bytes[7] < 10
    ensures DigitsOf(DecodeImei(bytes), bytes)
  {
    PairsOfDigits(bytes[..7]);
    DigitCode(bytes[7] as nat);
    var s, t := DecodeImei(bytes), ImeiDigits(bytes[..7]);
    forall i | 0 <= i < 7
      ensures s[2 * i] as int - '0' as int == bytes[i] as int / 10
      ensures s[2 * i + 1] as int - '0' as int == bytes[i] as int % 10
    {
      assert s[2 * i] == t[2 * i] && s[2 * i + 1] == t[2 * i + 1] && bytes[..7][i] == bytes[i];
    }
  }

  /** Year 0, month 0 and day 0 mean that there is no time. */
  predicate HasTime(time: Buffer)
    requires |time| == 7
  {
    256 * time[0] as int + time[1] as int != 0 && time[2] != 0 && time[3] != 0
  }

  /**
   * The header of any frame, byte for byte: token, declared length, IMEI digits, device id, time, serial
   * number and data zone lie where the parts put them, and the length is compared with the actual one.
   */
  lemma HeaderOnWire(number: AsciiZone.Numbers, f: Parts) returns (p: ParsedFrame)
    requires IsFrame(f)
    ensures ParseFrame(number, FrameBytes(f)) == Success(p) && HeaderIs(p.header, f) && p.dataZone == f.zone
    ensures p.kind == ResolveKind(AsciiString(f.head)) && p.body == ParseBody(number, p.kind, f.zone).0
    ensures p.warnings == FramingOf(f) + ParseBody(number, p.kind, f.zone).1
  {
    p := PartsParsed(ByToken(number), f);
    var r := ParseByToken(number, AsciiString(f.head), f.zone);
    assert ByToken(number)(AsciiString(f.head), f.zone) == r;
  }

  ghost predicate HeaderIs(h: Header, f: Parts)
    requires IsFrame(f)
  {
    && h.headToken == AsciiString(f.head)
    && h.declaredLength == 256 * f.length[0] as int + f.length[1] as int
    && h.computedDataZoneLength == |f.zone|
    && DigitsOf(h.imei, f.imei) && h.deviceId == f.deviceId
    && h.generatedAt == (if HasTime(f.time) then Some(f.time) else None)
    && h.serialNumber == 256 * f.serial[0] as int + f.serial[1] as int
  }

  /** The terminator should be there, and the declared length that of what lies between the two. */
  function FramingOf(f: Parts): seq<FrameWarning>
    requires IsFrame(f)
  {
    var declared, actual := 256 * f.length[0] as int + f.length[1] as int, 8 + 1 + |f.zone| + 7 + 2;
    (if f.terminated then [] else [NoTerminator]) +
    (if declared == actual then [] else [LengthMismatch(declared, actual)])
  }

  /** Where the binary section ends. */
  function SectionEnd(f: Parts): nat {
    |FrameBytes(f)| - if f.terminated then 1 else 0
  }

  lemma HeaderRead(f: Parts)
    requires IsFrame(f)
    ensures Locate(FrameBytes(f)) == Success(Section(|f.head|, SectionEnd(f)))
    ensures HeaderIs(ParseHeader(FrameBytes(f), |f.head|, SectionEnd(f)), f)
    ensures FrameBytes(f)[|f.head| + 11..SectionEnd(f) - 9] == f.zone
  {
    PartsLie(f);
    LocateOnWire(f);
    ImeiOnWire(f.imei);
  }

  lemma PartsParsed(bodyOf: BodyParser, f: Parts) returns (p: ParsedFrame)
    requires IsFrame(f)
    ensures ParseFrameWith(bodyOf, FrameBytes(f)) == Success(p) && HeaderIs(p.header, f) && p.dataZone == f.zone
    ensures var (kind, body, ws) := bodyOf(AsciiString(f.head), f.zone);
            p.kind == kind && p.body == body && p.warnings == FramingOf(f) + ws
  {
    HeaderRead(f);
    var b, h, n := FrameBytes(f), |f.head|, SectionEnd(f);
    var header := ParseHeader(b, h, n);
    LengthOfSection(f);
    p := Assemble(bodyOf, header, f.zone, FramingOf(f));
    LocatedFrame(bodyOf, b, h, n, header, f.zone);
  }

  lemma LengthOfSection(f: Parts)
    requires IsFrame(f)
    ensures SectionEnd(f) - |f.head| - 2 == 8 + 1 + |f.zone| + 7 + 2
    ensures FramingWarnings(SectionEnd(f) < |FrameBytes(f)|, 256 * f.length[0] as int + f.length[1] as int,
                            SectionEnd(f) - |f.head| - 2) == FramingOf(f)
  {}

  lemma PartsLie(f: Parts)
    requires IsFrame(f)
    ensures var b, h, n := FrameBytes(f), |f.head|, SectionEnd(f);
            && n == h + 2 + 8 + 1 + |f.zone| + 7 + 2
            && b[..h] == f.head
            && UIntAt(b, h, 2) == 256 * f.length[0] as int + f.length[1] as int
            && b[h + 2..h + 10] == f.imei && b[h + 10] == f.deviceId
            && b[h + 11..n - 9] == f.zone && b[n - 9..n - 2] == f.time
            && UIntAt(b, n - 2, 2) == 256 * f.serial[0] as int + f.serial[1] as int
            && b[|b| - 1] == if f.terminated then 0x23 else f.serial[1]
  {
    var b, h, n := FrameBytes(f), |f.head|, SectionEnd(f);
    WordReads(b, h);
    WordReads(b, n - 2);
    assert b[h] == f.length[0] && b[h + 1] == f.length[1];
    assert b[n - 2] == f.serial[0] && b[n - 1] == f.serial[1];
  }

  lemma LocateOnWire(f: Parts)
    requires IsFrame(f)
    ensures Locate(FrameBytes(f)) == Success(Section(|f.head|, SectionEnd(f)))
  {
    var b := FrameBytes(f);
    PartsLie(f);
    assert forall i :: 0 <= i < |f.head| ==> b[i] == b[..|f.head|][i];
    assert b[|f.head| - 1] == 0x3A;
    assert IndexOf(b, COLON, 0) == |f.head| - 1;
  }

  // ------------------------------------------------------------------
  // The data zone, by head token
  // ------------------------------------------------------------------

  /** A report frame, byte for byte. */
  lemma ReportFrame(number: AsciiZone.Numbers, f: Parts, version: Buffer, eventType: Byte, eventState: Byte,
                    word: Buffer, fields: seq<Sent>, e: Buffer, v: Value, ws: seq<Warning>)
    returns (p: ParsedFrame)
    requires IsFrame(f) && IsReportHead(f.head)
    requires |version| == 2 && BlockSent(DataBits, word, fields, e, v, ws)
    requires f.zone == version + [eventType, eventState] + e
    ensures ParseFrame(number, FrameBytes(f)) == Success(p) && HeaderIs(p.header, f)
    ensures p.body == Report(Items([Bytes(version), Num(eventType as int), Num(eventState as int), v]))
    ensures |p.warnings| == |FramingOf(f)| + |ws|
    ensures forall i :: 0 <= i < |ws| ==> p.warnings[|FramingOf(f)| + i] == InReport(ws[i])
  {
    p := HeaderOnWire(number, f);
    KindOfHead(f.head);
    ReportOnWire(version, eventType, eventState, word, fields, e, v, ws);
  }

  /** A report frame whose data zone misses part of its 8-byte header. */
  lemma HeadlessReportFrame(number: AsciiZone.Numbers, f: Parts) returns (p: ParsedFrame)
    requires IsFrame(f) && IsReportHead(f.head) && |f.zone| < 8
    ensures ParseFrame(number, FrameBytes(f)) == Success(p) && HeaderIs(p.header, f)
    ensures p.body == Broken && p.warnings == FramingOf(f) + [DataZoneFailed]
  {
    p := HeaderOnWire(number, f);
    KindOfHead(f.head);
    ReportUnfolds(ReportRules(), f.zone);
    assert InReportAll([]) + [DataZoneFailed] == [DataZoneFailed];
  }

  /** A heartbeat carries its protocol version, two bytes. */
  lemma HeartbeatFrame(number: AsciiZone.Numbers, f: Parts) returns (p: ParsedFrame)
    requires IsFrame(f) && IsHeartbeatHead(f.head)
    ensures ParseFrame(number, FrameBytes(f)) == Success(p) && HeaderIs(p.header, f)
    ensures |f.zone| >= 2 ==> p.body == Heartbeat([f.zone[0], f.zone[1]]) && p.warnings == FramingOf(f)
    ensures |f.zone| < 2 ==> p.body == Broken && p.warnings == FramingOf(f) + [DataZoneFailed]
  {
    p := HeaderOnWire(number, f);
    KindOfHead(f.head);
    HeartbeatBody(number, p.kind, f.zone);
    assert FramingOf(f) + [] == FramingOf(f);
  }

  lemma HeartbeatBody(number: AsciiZone.Numbers, kind: Kind, zone: Buffer)
    requires IsHeartbeat(kind)
    ensures ParseBody(number, kind, zone) ==
            if |zone| >= 2 then (Heartbeat([zone[0], zone[1]]), []) else (Broken, [DataZoneFailed])
  {
    if |zone| >= 2 {
      assert zone[..2] == [zone[0], zone[1]];
    }
  }

  /** Hex-encoded kinds are kept undecoded. */
  lemma OpaqueFrame(number: AsciiZone.Numbers, f: Parts) returns (p: ParsedFrame)
    requires IsFrame(f) && IsOpaqueHead(f.head)
    ensures ParseFrame(number, FrameBytes(f)) == Success(p) && HeaderIs(p.header, f)
    ensures p.body == Undecoded && p.warnings == FramingOf(f) + [NotImplementedYet]
  {
    p := HeaderOnWire(number, f);
    KindOfHead(f.head);
  }

  ghost predicate IsListHead(head: Buffer) {
    !IsReportHead(head) && !IsHeartbeatHead(head) && !IsOpaqueHead(head)
  }

  /** The bytes of a data zone as text. */
  ghost predicate IsTextOf(text: string, zone: Buffer) {
    |text| == |zone| && forall i :: 0 <= i < |zone| ==> text[i] as nat == zone[i] as nat % 128
  }

  lemma TextIs(text: string, zone: Buffer)
    requires IsTextOf(text, zone)
    ensures AsciiString(zone) == text
  {
    forall i | 0 <= i < |zone|
      ensures AsciiString(zone)[i] == text[i]
    {
      assert AsciiString(zone)[i] as nat == zone[i] as nat % 128;
    }
  }

  /** Any other frame is a list: comma-separated fields, command key, fences and the warnings about them. */
  lemma ListFrame(number: AsciiZone.Numbers, f: Parts, texts: seq<string>, shown: seq<PeoFences.Field>)
    returns (p: ParsedFrame)
    requires IsFrame(f) && IsListHead(f.head)
    requires texts != [] && CommaFree(texts) && IsTextOf(JoinCommas(texts), f.zone) && |shown| == |texts|
    requires forall i :: 0 <= i < |texts| ==> AsciiZone.Shows(number, texts[i], shown[i])
    ensures ParseFrame(number, FrameBytes(f)) == Success(p) && HeaderIs(p.header, f)
    ensures f.zone != [] ==>
              p.body == AsciiList(AsciiZone.AsciiData(JoinCommas(texts), texts,
                                                      if texts[0] == "" then None else Some(texts[0]),
                                                      PeoFences.ScanFrom(shown, 0).fences))
    ensures f.zone == [] ==>
              p.body == AsciiList(AsciiZone.AsciiData("", [], None, [])) && p.warnings == FramingOf(f)
    ensures f.zone != [] ==>
              var ws := PeoFences.ScanFrom(shown, 0).warnings;
              && |p.warnings| == |FramingOf(f)| + |ws|
              && forall i :: 0 <= i < |ws| ==> p.warnings[|FramingOf(f)| + i] == InFences(ws[i])
  {
    p := HeaderOnWire(number, f);
    KindOfHead(f.head);
    ListBody(number, p.kind, f.zone, texts, shown);
    assert FramingOf(f) + [] == FramingOf(f);
  }

  lemma ListBody(number: AsciiZone.Numbers, kind: Kind, zone: Buffer, texts: seq<string>, shown: seq<PeoFences.Field>)
    requires !IsReport(kind) && !IsHeartbeat(kind) && !IsOpaque(kind)
    requires texts != [] && CommaFree(texts) && IsTextOf(JoinCommas(texts), zone) && |shown| == |texts|
    requires forall i :: 0 <= i < |texts| ==> AsciiZone.Shows(number, texts[i], shown[i])
    ensures var (body, ws) := ParseBody(number, kind, zone);
            if zone == [] then body == AsciiList(AsciiZone.AsciiData("", [], None, [])) && ws == []
            else
              && body == AsciiList(AsciiZone.AsciiData(JoinCommas(texts), texts,
                                                       if texts[0] == "" then None else Some(texts[0]),
                                                       PeoFences.ScanFrom(shown, 0).fences))
              && ws == InFencesAll(PeoFences.ScanFrom(shown, 0).warnings)
  {
    TextIs(JoinCommas(texts), zone);
    AsciiZone.TextDecodes(number, texts, shown);
  }

  // ------------------------------------------------------------------
  // The same for messages
  // ------------------------------------------------------------------

  /** A report message built from supported bits reaches the parsed frame as the same report, without any warning. */
  lemma ReportMessageDecodes(number: AsciiZone.Numbers, m: Message, version: Buffer, eventType: Byte, eventState: Byte,
                             mask: nat, entries: seq<Entry>)
    requires Buildable(m) && |version| == 2 && mask < Pow256(4)
    ensures IsReportHead(m.head) && FitsBits(ReportRules(), mask, 0, entries)
            && m.zone == BuildReportDataZone(version, eventType, eventState, mask,
                                             EncodeBits(ReportRules(), mask, 0, entries))
            ==>
              && ParsedMessage(number, m).body == Report(ReportValue(version, eventType, eventState, mask, entries))
              && ParsedMessage(number, m).warnings == []
  {
    KindOfHead(m.head);
    if FitsBits(ReportRules(), mask, 0, entries) {
      ReportRoundTrip(version, eventType, eventState, mask, entries);
      assert InReportAll([]) == [];
    }
  }

  /**
   * A list frame whose data zone is the text of fence records, among any other fields, reaches the
   * parsed frame as those fences.
   */
  lemma FenceMessageDecodes(number: AsciiZone.Numbers, m: Message, texts: seq<string>, items: seq<PeoFences.Item>)
    requires Buildable(m) && IsListHead(m.head)
    requires texts != [] && CommaFree(texts) && JoinCommas(texts) != "" && IsTextOf(JoinCommas(texts), m.zone)
    requires PeoFences.AllSound(items) && |texts| == |PeoFences.EncodeItems(items)|
    requires forall i :: 0 <= i < |texts| ==> AsciiZone.Shows(number, texts[i], PeoFences.EncodeItems(items)[i])
    ensures ParsedMessage(number, m).body ==
            AsciiList(AsciiZone.AsciiData(JoinCommas(texts), texts, if texts[0] == "" then None else Some(texts[0]),
                                          PeoFences.FencesOf(items)))
    ensures ParsedMessage(number, m).warnings == []
  {
    KindOfHead(m.head);
    TextIs(JoinCommas(texts), m.zone);
    AsciiZone.FenceTextDecodes(number, texts, items);
    assert InFencesAll([]) == [];
  }
}
