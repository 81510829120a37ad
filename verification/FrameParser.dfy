/** One delimited AVT110 frame to a typed object, and the fixture encoder that mirrors it. */
module FrameParser {
  import opened Bytes
  import opened Commas
  import opened Wrappers
  import opened BufferCursors
  import opened FrameSplitter
  import opened Schema
  import opened ReportLayout
  import opened ReportTheorems
  import opened ReportParser
  import AsciiZone
  import PeoFences

  // ------------------------------------------------------------------
  // Kinds
  // ------------------------------------------------------------------

  datatype Kind = Known(token: string) | UnknownKind

  predicate IsKindToken(token: string) {
    token in {
      "+RPT", "-RPT", "+HBD", "+ACK", "+NACK", "+QRY", "+ALL", "+VER", "+QNI", "+GSV", "+LSV", "+BSV", "+GAV", "+CVS",
      "+CMI", "+DFI", "+LDP", "-LDP", "+BMR", "-BMR", "+SCF", "+TCF", "+BCD"}
  }

  predicate IsReport(kind: Kind) {
    kind == Known("+RPT") || kind == Known("-RPT")
  }

  predicate IsHeartbeat(kind: Kind) {
    kind == Known("+HBD")
  }

  /** Hex-encoded kinds whose data zone is not decoded. */
  predicate IsOpaque(kind: Kind) {
    kind in {Known("+LDP"), Known("-LDP"), Known("+BMR"), Known("-BMR")}
  }

  function AsciiString(bytes: Buffer): (r: string)
    ensures |r| == |bytes|
  {
    seq(|bytes|, i requires 0 <= i < |bytes| => (bytes[i] % 128) as char)
  }

  /** `headToken.replace(/:$/, '')`, then a lookup. */
  function ResolveKind(headToken: string): Kind {
    var n := |headToken|;
    var withoutColon := if n > 0 && headToken[n - 1] == ':' then headToken[..n - 1] else headToken;
    if IsKindToken(withoutColon) then Known(withoutColon) else UnknownKind
  }

  /** A kind is known for exactly 23 tokens, with or without a colon behind them. */
  lemma KindOfToken(headToken: string, token: string)
    ensures ResolveKind(headToken) == Known(token) <==>
            && (headToken == token || headToken == token + ":")
            && token in {"+RPT", "-RPT", "+HBD", "+ACK", "+NACK", "+QRY", "+ALL", "+VER", "+QNI", "+GSV", "+LSV",
                         "+BSV", "+GAV", "+CVS", "+CMI", "+DFI", "+LDP", "-LDP", "+BMR", "-BMR", "+SCF", "+TCF", "+BCD"}
  {
    if IsKindToken(token) {
      TokensEndInLetters(token);
    }
    assert (token + ":")[..|token|] == token;
    if ResolveKind(headToken) == Known(token) && headToken != token {
      assert headToken == headToken[..|headToken| - 1] + ":";
    }
  }

  lemma TokensEndInLetters(token: string)
    requires IsKindToken(token)
    ensures token != "" && token[|token| - 1] != ':'
  {}

  /** The ASCII reading of the bytes is this text: the high bit of a byte does not matter. */
  predicate Spells(bytes: Buffer, codes: seq<nat>) {
    |bytes| == |codes| && forall i :: 0 <= i < |bytes| ==> bytes[i] as nat % 128 == codes[i]
  }

  /** "+RPT:" or "-RPT:". */
  predicate IsReportHead(head: Buffer) {
    Spells(head, [0x2B, 0x52, 0x50, 0x54, 0x3A]) || Spells(head, [0x2D, 0x52, 0x50, 0x54, 0x3A])
  }

  /** "+HBD:". */
  predicate IsHeartbeatHead(head: Buffer) {
    Spells(head, [0x2B, 0x48, 0x42, 0x44, 0x3A])
  }

  /** "+LDP:", "-LDP:", "+BMR:" or "-BMR:". */
  predicate IsOpaqueHead(head: Buffer) {
    || Spells(head, [0x2B, 0x4C, 0x44, 0x50, 0x3A]) || Spells(head, [0x2D, 0x4C, 0x44, 0x50, 0x3A])
    || Spells(head, [0x2B, 0x42, 0x4D, 0x52, 0x3A]) || Spells(head, [0x2D, 0x42, 0x4D, 0x52, 0x3A])
  }

  lemma SpelledIs(head: Buffer, codes: seq<nat>, text: string)
    requires |codes| == |text| && forall i :: 0 <= i < |codes| ==> codes[i] < 128 && text[i] as nat == codes[i]
    ensures Spells(head, codes) <==> AsciiString(head) == text
  {
    var s := AsciiString(head);
    if |head| == |text| {
      assert forall i :: 0 <= i < |head| ==> s[i] == (head[i] % 128) as char;
      if Spells(head, codes) {
        assert forall i :: 0 <= i < |head| ==> s[i] == text[i];
      }
    }
  }

  /** What the bytes of a head token, with its colon, make of a frame. */
  lemma KindOfHead(head: Buffer)
    requires |head| > 0 && head[|head| - 1] == COLON
    ensures IsReport(ResolveKind(AsciiString(head))) <==> IsReportHead(head)
    ensures IsHeartbeat(ResolveKind(AsciiString(head))) <==> IsHeartbeatHead(head)
    ensures IsOpaque(ResolveKind(AsciiString(head))) <==> IsOpaqueHead(head)
  {
    var token := AsciiString(head);
    assert token[|token| - 1] == ':';
    HeadIs(head, [0x2B, 0x52, 0x50, 0x54, 0x3A], "+RPT");
    HeadIs(head, [0x2D, 0x52, 0x50, 0x54, 0x3A], "-RPT");
    HeadIs(head, [0x2B, 0x48, 0x42, 0x44, 0x3A], "+HBD");
    HeadIs(head, [0x2B, 0x4C, 0x44, 0x50, 0x3A], "+LDP");
    HeadIs(head, [0x2D, 0x4C, 0x44, 0x50, 0x3A], "-LDP");
    HeadIs(head, [0x2B, 0x42, 0x4D, 0x52, 0x3A], "+BMR");
    HeadIs(head, [0x2D, 0x42, 0x4D, 0x52, 0x3A], "-BMR");
  }

  lemma HeadIs(head: Buffer, codes: seq<nat>, token: string)
    requires |head| > 0 && head[|head| - 1] == COLON
    requires |codes| == |token| + 1 && codes[|token|] == 0x3A
    requires forall i :: 0 <= i < |token| ==> codes[i] < 128 && token[i] as nat == codes[i]
    requires IsKindToken(token)
    ensures ResolveKind(AsciiString(head)) == Known(token) <==> Spells(head, codes)
  {
    KindOfToken(AsciiString(head), token);
    TokensEndInLetters(token);
    SpelledIs(head, codes, token + ":");
    assert AsciiString(head)[|head| - 1] == ':';
  }

  // ------------------------------------------------------------------
  // IMEI
  // ------------------------------------------------------------------

  function Digit(d: nat): char
    requires d < 10
  {
    "0123456789"[d]
  }

  /** `n.toString(10).padStart(2, '0')` for a byte. */
  function TwoDigits(b: Byte): (s: string)
    ensures |s| >= 2
  {
    var n := b as nat;
    if n < 100 then [Digit(n / 10), Digit(n % 10)] else [Digit(n / 100), Digit(n / 10 % 10), Digit(n % 10)]
  }

  function ImeiDigits(bytes: Buffer): string {
    if bytes == [] then "" else TwoDigits(bytes[0]) + ImeiDigits(bytes[1..])
  }

  /** `decodeImei`: two digits for each of seven bytes, then the last digit of the eighth. */
  function DecodeImei(bytes: Buffer): string
    requires |bytes| == 8
  {
    ImeiDigits(bytes[..7]) + [Digit(bytes[7] as nat % 10)]
  }

  method DecodeImeiLoop(bytes: Buffer) returns (imei: string)
    requires |bytes| == 8
    ensures imei == DecodeImei(bytes)
  {
    imei := "";
    for i := 0 to 7
      invariant imei == ImeiDigits(bytes[..i])
    {
      ImeiDigitsSnoc(bytes[..i], bytes[i]);
      assert bytes[..i] + [bytes[i]] == bytes[..i + 1];
      imei := imei + TwoDigits(bytes[i]);
    }
    imei := imei + [Digit(bytes[7] as nat % 10)];
  }

  lemma {:induction false} ImeiDigitsSnoc(a: Buffer, b: Byte)
    ensures ImeiDigits(a + [b]) == ImeiDigits(a) + TwoDigits(b)
  {
    if a == [] {
      assert a + [b] == [b];
      assert [b][1..] == [];
    } else {
      ImeiDigitsSnoc(a[1..], b);
      Uncons(a, [b]);
      Assoc(TwoDigits(a[0]), ImeiDigits(a[1..]), TwoDigits(b));
    }
  }

  predicate IsDigit(c: char) {
    '0' <= c <= '9'
  }

  function DigitValue(c: char): (d: nat)
    requires IsDigit(c)
    ensures d < 10 && Digit(d) == c
  {
    c as nat - '0' as nat
  }

  predicate IsImei(s: string) {
    |s| == 15 && forall i :: 0 <= i < 15 ==> IsDigit(s[i])
  }

  /** Two decimal digits in one byte. */
  function PairByte(high: char, low: char): Byte
    requires IsDigit(high) && IsDigit(low)
  {
    (10 * DigitValue(high) + DigitValue(low)) as Byte
  }

  lemma PairDigits(high: nat, low: nat, b: Byte)
    requires high < 10 && low < 10 && b as nat == 10 * high + low
    ensures TwoDigits(b) == [Digit(high), Digit(low)]
  {
    assert b as nat / 10 == high;
    assert b as nat % 10 == low;
  }

  function PairBytes(s: string): (r: Buffer)
    requires |s| % 2 == 0 && forall i :: 0 <= i < |s| ==> IsDigit(s[i])
    ensures |r| == |s| / 2
  {
    if s == "" then [] else [PairByte(s[0], s[1])] + PairBytes(s[2..])
  }

  /** `encodeImei`. */
  function EncodeImei(imei: string): (r: Buffer)
    requires IsImei(imei)
    ensures |r| == 8
  {
    PairBytes(imei[..14]) + [DigitValue(imei[14]) as Byte]
  }

  lemma {:induction false} PairRoundTrip(s: string)
    requires |s| % 2 == 0 && forall i :: 0 <= i < |s| ==> IsDigit(s[i])
    ensures ImeiDigits(PairBytes(s)) == s
  {
    if s != "" {
      var rest := s[2..];
      PairRoundTrip(rest);
      PairDigits(DigitValue(s[0]), DigitValue(s[1]), PairByte(s[0], s[1]));
      ImeiDigitsCons(PairByte(s[0], s[1]), PairBytes(rest));
      assert s == [s[0], s[1]] + rest;
    }
  }

  lemma ImeiDigitsCons(b: Byte, rest: Buffer)
    ensures ImeiDigits([b] + rest) == TwoDigits(b) + ImeiDigits(rest)
  {
    assert ([b] + rest)[1..] == rest;
  }

  lemma ImeiRoundTrip(imei: string)
    requires IsImei(imei)
    ensures DecodeImei(EncodeImei(imei)) == imei
  {
    PairRoundTrip(imei[..14]);
    assert EncodeImei(imei)[..7] == PairBytes(imei[..14]);
  }

  // ------------------------------------------------------------------
  // parseFrame
  // ------------------------------------------------------------------

  datatype FrameError = EmptyFrame | NoHeadToken | TruncatedHeader | TooShort

  datatype FrameWarning =
    | NoTerminator
    | LengthMismatch(declared: nat, actual: nat)
    | InReport(warning: Warning)
    | InFences(fenceWarning: PeoFences.Warning)
    | NotImplementedYet
    | DataZoneFailed

  /** `generatedAt` carries the raw 7 time bytes; it is absent when year, month or day is zero. */
  datatype Header = Header(
    headToken: string, declaredLength: nat, computedDataZoneLength: nat,
    imei: string, deviceId: Byte, generatedAt: Option<Buffer>, serialNumber: nat)

  datatype Body =
    | Report(value: Value)
    | Heartbeat(protocolVersion: Buffer)
    | AsciiList(ascii: AsciiZone.AsciiData)
    | Undecoded
    | Broken

  datatype ParsedFrame = ParsedFrame(kind: Kind, header: Header, dataZone: Buffer, warnings: seq<FrameWarning>,
                                     body: Body)

  const HEADER_PREFIX_BYTES := 2 + 8 + 1
  const TRAILER_BYTES := 7 + 2

  /** `decodeGTime`. */
  function GTime(bytes: Buffer): Option<Buffer>
    requires |bytes| == 7
  {
    if (bytes[0] == 0 && bytes[1] == 0) || bytes[2] == 0 || bytes[3] == 0 then None else Some(bytes)
  }

  function InReportAll(ws: seq<Warning>): seq<FrameWarning> {
    seq(|ws|, i requires 0 <= i < |ws| => InReport(ws[i]))
  }

  function InFencesAll(ws: seq<PeoFences.Warning>): seq<FrameWarning> {
    seq(|ws|, i requires 0 <= i < |ws| => InFences(ws[i]))
  }

  /** What the data zone of a frame of this kind decodes to, with the warnings it adds. */
  function ParseBody(number: AsciiZone.Numbers, kind: Kind, zone: Buffer): (Body, seq<FrameWarning>) {
    if IsReport(kind) then
      match Decode(ReportShape(), zone, 0)
      case Good(v, _, ws) => (Report(v), InReportAll(ws))
      case Cut(_, _, ws) => (Broken, InReportAll(ws) + [DataZoneFailed])
    else if IsHeartbeat(kind) then
      if |zone| < 2 then (Broken, [DataZoneFailed]) else (Heartbeat(zone[..2]), [])
    else if IsOpaque(kind) then (Undecoded, [NotImplementedYet])
    else
      var (ascii, ws) := AsciiZone.Parse(number, AsciiString(zone));
      (AsciiList(ascii), InFencesAll(ws))
  }

  /** The binary section: everything between the head token and the terminator, if there is one. */
  function BodyEnd(frame: Buffer): (e: nat)
    ensures e <= |frame|
  {
    if frame != [] && frame[|frame| - 1] == HASH then |frame| - 1 else |frame|
  }

  /** Where the binary section of a frame lies, or why the frame cannot be parsed. */
  datatype Section = Section(at: nat, end: nat)

  function Locate(frame: Buffer): (r: Result<Section, FrameError>)
    ensures r.Success? ==> r.value.at + HEADER_PREFIX_BYTES + TRAILER_BYTES <= r.value.end <= |frame|
  {
    var colonIndex := IndexOf(frame, COLON, 0);
    var at, end := colonIndex + 1, BodyEnd(frame);
    if |frame| == 0 then Failure(EmptyFrame)
    else if colonIndex == -1 || colonIndex > 7 then Failure(NoHeadToken)
    else if end < at + HEADER_PREFIX_BYTES then Failure(TruncatedHeader)
    else if end < at + HEADER_PREFIX_BYTES + TRAILER_BYTES then Failure(TooShort)
    else Success(Section(at, end))
  }

  /** `parseHeader`. */
  function ParseHeader(frame: Buffer, at: nat, end: nat): Header
    requires at + HEADER_PREFIX_BYTES + TRAILER_BYTES <= end <= |frame|
  {
    var headToken := AsciiString(frame[..at]);
    Header(
      headToken, UIntAt(frame, at, 2), end - at - HEADER_PREFIX_BYTES - TRAILER_BYTES,
      DecodeImei(frame[at + 2..at + 10]), frame[at + 10],
      GTime(frame[end - 9..end - 2]), UIntAt(frame, end - 2, 2))
  }

  /** The warnings of `parseFrame` and `parseHeader` themselves. */
  function FramingWarnings(hasTrailingHash: bool, declared: nat, actual: nat): seq<FrameWarning> {
    (if hasTrailingHash then [] else [NoTerminator]) +
    (if declared != actual then [LengthMismatch(declared, actual)] else [])
  }

  /** Resolves a head token and decodes the data zone of that kind. */
  type BodyParser = (string, Buffer) -> (Kind, Body, seq<FrameWarning>)

  function ParseByToken(number: AsciiZone.Numbers, headToken: string, zone: Buffer): (Kind, Body, seq<FrameWarning>) {
    var kind := ResolveKind(headToken);
    var (body, ws) := ParseBody(number, kind, zone);
    (kind, body, ws)
  }

  function ByToken(number: AsciiZone.Numbers): BodyParser {
    (headToken, zone) => ParseByToken(number, headToken, zone)
  }

  function Assemble(bodyOf: BodyParser, header: Header, zone: Buffer, framing: seq<FrameWarning>): ParsedFrame {
    var (kind, body, ws) := bodyOf(header.headToken, zone);
    ParsedFrame(kind, header, zone, framing + ws, body)
  }

  function ParseFrame(number: AsciiZone.Numbers, frame: Buffer): Result<ParsedFrame, FrameError> {
    ParseFrameWith(ByToken(number), frame)
  }

  /** `parseFrame`, for any decoder of data zones. */
  function ParseFrameWith(bodyOf: BodyParser, frame: Buffer): Result<ParsedFrame, FrameError> {
    var s :- Locate(frame);
    var header := ParseHeader(frame, s.at, s.end);
    Success(Assemble(
      bodyOf, header, frame[s.at + HEADER_PREFIX_BYTES..s.end - TRAILER_BYTES],
      FramingWarnings(s.end < |frame|, header.declaredLength, s.end - s.at - 2)))
  }

  /** The fields of the binary section, in terms of the whole frame. */
  lemma SectionSlices(frame: Buffer, at: nat, end: nat)
    requires at + HEADER_PREFIX_BYTES + TRAILER_BYTES <= end <= |frame|
    ensures var section := frame[at..end];
            && UIntAt(section, 0, 2) == UIntAt(frame, at, 2)
            && section[2..10] == frame[at + 2..at + 10]
            && section[10] == frame[at + 10]
            && section[11..|section| - 9] == frame[at + 11..end - 9]
            && section[|section| - 9..|section| - 2] == frame[end - 9..end - 2]
            && UIntAt(section, |section| - 2, 2) == UIntAt(frame, end - 2, 2)
  {
    UIntAtShift(frame, at, end, 0, 2);
    UIntAtShift(frame, at, end, end - at - 2, 2);
    SliceShift(frame, at, end, 2, 10);
    SliceShift(frame, at, end, 11, end - at - 9);
    SliceShift(frame, at, end, end - at - 9, end - at - 2);
  }

  /** `parseHeader` as written: a cursor over the binary section, and the mismatch warning. */
  method ReadHeader(frame: Buffer, at: nat, end: nat) returns (r: Result<(Header, Buffer, bool), FrameError>)
    requires 0 < at <= end <= |frame|
    ensures r.Success? <==> at + HEADER_PREFIX_BYTES + TRAILER_BYTES <= end
    ensures r.Failure? ==> r.error == if end < at + HEADER_PREFIX_BYTES then TruncatedHeader else TooShort
    ensures r.Success? ==>
              && r.value.0 == ParseHeader(frame, at, end)
              && r.value.1 == frame[at + HEADER_PREFIX_BYTES..end - TRAILER_BYTES]
              && r.value.2 == (UIntAt(frame, at, 2) != end - at - 2)
  {
    var binarySection := frame[at..end];
    var cursor := new BufferCursor(binarySection);
    var declaredLength := cursor.ReadUInt(2);
    if declaredLength.Failure? {
      return Failure(TruncatedHeader);
    }
    var imei := cursor.ReadBytes(8);
    if imei.Failure? {
      return Failure(TruncatedHeader);
    }
    var deviceId := cursor.ReadBytes(1);
    if deviceId.Failure? {
      return Failure(TruncatedHeader);
    }
    if cursor.Remaining() < TRAILER_BYTES {
      return Failure(TooShort);
    }
    var dataZone := cursor.ReadBytes(cursor.Remaining() - TRAILER_BYTES);
    var generatedTime := cursor.ReadBytes(7);
    var serialAt := cursor.offset;
    var serialNumber := cursor.ReadUInt(2);
    SectionSlices(frame, at, end);
    assert deviceId.value[0] == binarySection[10];
    var imeiText := DecodeImeiLoop(imei.value);
    var header := Header(AsciiString(frame[..at]), declaredLength.value, |dataZone.value|, imeiText, deviceId.value[0],
                         GTime(generatedTime.value), serialNumber.value);
    r := Success((header, dataZone.value, declaredLength.value != |binarySection| - 2));
  }

  /** The data zone as written: the report decoder pushes onto the shared warnings. */
  method ReadBody(number: AsciiZone.Numbers, kind: Kind, zone: Buffer) returns (body: Body, ws: seq<FrameWarning>)
    ensures (body, ws) == ParseBody(number, kind, zone)
  {
    if IsReport(kind) {
      var log := new WarningLog();
      var report := ParseReportDataZone(zone, log);
      assert log.items == Decode(ReportShape(), zone, 0).warnings;
      ws := InReportAll(log.items);
      if report.Failure? {
        return Broken, ws + [DataZoneFailed];
      }
      return Report(report.value), ws;
    }
    if IsHeartbeat(kind) {
      if |zone| < 2 {
        return Broken, [DataZoneFailed];
      }
      return Heartbeat(zone[..2]), [];
    }
    if IsOpaque(kind) {
      return Undecoded, [NotImplementedYet];
    }
    var ascii, fenceWarnings := AsciiZone.ParseAsciiDataZone(number, AsciiString(zone));
    return AsciiList(ascii), InFencesAll(fenceWarnings);
  }

  /** `parseFrame` as written. */
  method Parse(number: AsciiZone.Numbers, frame: Buffer) returns (r: Result<ParsedFrame, FrameError>)
    ensures r == ParseFrame(number, frame)
  {
    if |frame| == 0 {
      return Failure(EmptyFrame);
    }
    var colonIndex := IndexOf(frame, COLON, 0);
    if colonIndex == -1 || colonIndex > 7 {
      return Failure(NoHeadToken);
    }
    var at := colonIndex + 1;
    var hasTrailingHash := frame[|frame| - 1] == HASH;
    var end := if hasTrailingHash then |frame| - 1 else |frame|;
    assert end >= at by {
      assert hasTrailingHash ==> frame[colonIndex] != frame[|frame| - 1];
    }
    var header, dataZone, mismatch;
    var read := ReadHeader(frame, at, end);
    if read.Failure? {
      return Failure(read.error);
    }
    header, dataZone, mismatch := read.value.0, read.value.1, read.value.2;
    var warnings := [];
    if !hasTrailingHash {
      warnings := warnings + [NoTerminator];
    }
    if mismatch {
      warnings := warnings + [LengthMismatch(header.declaredLength, end - at - 2)];
    }
    assert warnings == FramingWarnings(hasTrailingHash, header.declaredLength, end - at - 2);
    var kind := ResolveKind(header.headToken);
    var body, ws := ReadBody(number, kind, dataZone);
    LocatedFrame(ByToken(number), frame, at, end, header, dataZone);
    r := Success(ParsedFrame(kind, header, dataZone, warnings + ws, body));
  }

  // ------------------------------------------------------------------
  // Splitter and parser agree
  // ------------------------------------------------------------------

  lemma LocatedFrame(bodyOf: BodyParser, f: Buffer, at: nat, end: nat, header: Header, zone: Buffer)
    requires Locate(f) == Success(Section(at, end)) && header == ParseHeader(f, at, end)
    requires zone == f[at + HEADER_PREFIX_BYTES..end - TRAILER_BYTES]
    ensures ParseFrameWith(bodyOf, f) ==
            Success(Assemble(bodyOf, header, zone, FramingWarnings(end < |f|, header.declaredLength, end - at - 2)))
  {}

  ghost predicate ReportsMismatch(p: ParsedFrame) {
    exists w :: w in p.warnings && w.LengthMismatch?
  }

  /** Decoding a data zone adds no framing warnings. */
  ghost predicate Quiet(bodyOf: BodyParser) {
    forall token, zone, w :: w in bodyOf(token, zone).2 ==> !w.LengthMismatch?
  }

  lemma ParseBodyQuiet(number: AsciiZone.Numbers)
    ensures Quiet(ByToken(number))
  {}

  lemma OnlyFramingWarnings(bodyOf: BodyParser, header: Header, zone: Buffer, hasTrailingHash: bool, declared: nat,
                            actual: nat, p: ParsedFrame)
    requires Quiet(bodyOf) && p == Assemble(bodyOf, header, zone, FramingWarnings(hasTrailingHash, declared, actual))
    ensures ReportsMismatch(p) <==> declared != actual
  {
    var framing := FramingWarnings(hasTrailingHash, declared, actual);
    assert forall w :: w in p.warnings <==> w in framing || w in bodyOf(header.headToken, zone).2;
    assert declared != actual ==> LengthMismatch(declared, actual) in framing;
  }

  /** The parser on any frame with a colon in reach and a terminator behind its Length field. */
  lemma ParserOnFrame(bodyOf: BodyParser, f: Buffer) returns (p: ParsedFrame)
    requires Quiet(bodyOf)
    requires HeadColon(f) >= 0 && |f| > LengthFieldEnd(f) && f[|f| - 1] == HASH
    requires Locate(f).Success?
    ensures ParseFrameWith(bodyOf, f) == Success(p)
    ensures ReportsMismatch(p) <==> |f| != DeclaredEnd(f)
  {
    LocateOnFrame(f);
    var header, zone := FramedParse(bodyOf, f);
    p := Assemble(bodyOf, header, zone, FramingWarnings(true, header.declaredLength, |f| - HeadColon(f) - 4));
    OnlyFramingWarnings(bodyOf, header, zone, true, header.declaredLength, |f| - HeadColon(f) - 4, p);
  }

  lemma FramedParse(bodyOf: BodyParser, f: Buffer) returns (header: Header, zone: Buffer)
    requires HeadColon(f) >= 0 && |f| > LengthFieldEnd(f) && f[|f| - 1] == HASH
    requires Locate(f) == Success(Section(HeadColon(f) + 1, |f| - 1))
    ensures ParseFrameWith(bodyOf, f) ==
            Success(Assemble(bodyOf, header, zone,
                             FramingWarnings(true, header.declaredLength, |f| - HeadColon(f) - 4)))
    ensures |f| == DeclaredEnd(f) <==> header.declaredLength == |f| - HeadColon(f) - 4
  {
    var at, end := HeadColon(f) + 1, |f| - 1;
    header := ParseHeader(f, at, end);
    zone := f[at + HEADER_PREFIX_BYTES..end - TRAILER_BYTES];
    LocatedFrame(bodyOf, f, at, end, header, zone);
  }

  lemma LocateOnFrame(f: Buffer)
    requires HeadColon(f) >= 0 && |f| > LengthFieldEnd(f) && f[|f| - 1] == HASH
    ensures IndexOf(f, COLON, 0) == HeadColon(f)
    ensures Locate(f).Success? <==> |f| - 1 - LengthFieldEnd(f) >= MINIMUM_TRAILING_FIXED_BYTES
    ensures Locate(f).Success? ==> Locate(f).value == Section(HeadColon(f) + 1, |f| - 1)
  {
    assert f[HeadColon(f)] == COLON;
  }

  /**
   * Two separately written components agree on every frame the splitter cuts:
   * same colon, a terminator at the end; the parser throws exactly when fewer
   * than 18 bytes lie between Length and terminator, which only the fast path
   * lets through; and it reports a Length mismatch exactly when the fallback
   * chose the boundary.
   */
  lemma ParserAgrees(number: AsciiZone.Numbers, f: Buffer, trusted: bool)
    requires CutByResolve(f, trusted)
    ensures 0 <= HeadColon(f) == IndexOf(f, COLON, 0) && |f| > LengthFieldEnd(f) && f[|f| - 1] == HASH
    ensures ParseFrame(number, f).Failure? <==> |f| - 1 - LengthFieldEnd(f) < MINIMUM_TRAILING_FIXED_BYTES
    ensures ParseFrame(number, f).Failure? ==> trusted
    ensures ParseFrame(number, f).Success? ==> (ReportsMismatch(ParseFrame(number, f).value) <==> !trusted)
  {
    CutGeometry(f, trusted);
    LocateOnFrame(f);
    if Locate(f).Success? {
      ParseBodyQuiet(number);
      var p := ParserOnFrame(ByToken(number), f);
    }
  }

  /** The agreement, for every frame of every run of pushes. */
  lemma EmittedFramesAgree(number: AsciiZone.Numbers, chunks: seq<Buffer>, max: nat, s: Segment)
    requires s in Feed([], chunks, max).segments && s.Frame?
    ensures HeadColon(s.bytes) >= 0 && |s.bytes| > LengthFieldEnd(s.bytes)
    ensures ParseFrame(number, s.bytes).Failure? <==>
            |s.bytes| - 1 - LengthFieldEnd(s.bytes) < MINIMUM_TRAILING_FIXED_BYTES
    ensures ParseFrame(number, s.bytes).Failure? ==> s.trusted
    ensures ParseFrame(number, s.bytes).Success? ==>
              (ReportsMismatch(ParseFrame(number, s.bytes).value) <==> !s.trusted)
  {
    RunConserves([], chunks, max);
    assert Lawful(s);
    ParserAgrees(number, s.bytes, s.trusted);
  }

  /**
   * `parseFrame` throws exactly on an empty frame, without a head token, or with too few bytes between
   * token and terminator.
   */
  lemma ThrowsExactly(number: AsciiZone.Numbers, f: Buffer)
    ensures ParseFrame(number, f).Failure? <==>
            || f == []
            || (forall i :: 0 <= i < |f| && i < 8 ==> f[i] != COLON)
            || BodyEnd(f) - (IndexOf(f, COLON, 0) + 1) < HEADER_PREFIX_BYTES + TRAILER_BYTES
    ensures ParseFrame(number, f).Failure? ==>
              ParseFrame(number, f).error ==
              if f == [] then EmptyFrame
              else if forall i :: 0 <= i < |f| && i < 8 ==> f[i] != COLON then NoHeadToken
              else if BodyEnd(f) - (IndexOf(f, COLON, 0) + 1) < 2 + 8 + 1 then TruncatedHeader
              else TooShort
  {
    var c := IndexOf(f, COLON, 0);
    assert 0 <= c < 8 ==> f[c] == COLON;
  }

  /** The splitter does hand such a frame to the parser: `+RPT:` with Length 0, cut by the fast path. */
  lemma ShortFrameWitness(number: AsciiZone.Numbers, max: nat) returns (f: Buffer)
    ensures |f| == 8 && Emitted(Feed([], [f], max).segments) == [f] && ParseFrame(number, f).Failure?
  {
    f := [0x2B, 0x52, 0x50, 0x54, 0x3A, 0x00, 0x00, 0x23];
    assert f[4] == COLON && COLON !in f[..4];
    assert HeadColon(f) == 4;
    assert UIntAt(f, 5, 2) == 256 * UIntAt(f, 5, 1) + f[6] as nat;
    assert UIntAt(f, 5, 1) == 256 * UIntAt(f, 5, 0) + f[5] as nat;
    assert Honest(f);
    assert Flatten([f]) == f + Flatten([f][1..]) == f;
    OnePushDelivers([f], max);
    ThrowsExactly(number, f);
  }

  // ------------------------------------------------------------------
  // Frame-level round trip
  // ------------------------------------------------------------------

  /** What `buildFrame` assembles a frame from; `generatedTime` is the 7 bytes of `encodeGTime`. */
  datatype Message = Message(
    head: Buffer, imei: string, deviceId: Byte, zone: Buffer, generatedTime: Buffer, serialNumber: nat,
    declaredLengthOverride: Option<nat>)

  function ActualLength(m: Message): nat {
    8 + 1 + |m.zone| + 7 + 2
  }

  function WrittenLength(m: Message): nat {
    if m.declaredLengthOverride.Some? then m.declaredLengthOverride.value else ActualLength(m)
  }

  /** A head token ends in its only colon, at index at most 7. */
  predicate IsHead(head: Buffer) {
    0 < |head| <= 8 && head[|head| - 1] == COLON && forall i :: 0 <= i < |head| - 1 ==> head[i] != COLON
  }

  ghost predicate Buildable(m: Message) {
    && IsHead(m.head) && IsImei(m.imei) && |m.generatedTime| == 7
    && m.serialNumber < Pow256(2) && WrittenLength(m) < Pow256(2)
  }

  function BuildFrame(m: Message): (r: Buffer)
    requires Buildable(m)
    ensures |r| == |m.head| + 2 + ActualLength(m) + 1
  {
    m.head + UIntBytes(WrittenLength(m), 2) + EncodeImei(m.imei) + [m.deviceId] + m.zone + m.generatedTime +
    UIntBytes(m.serialNumber, 2) + [HASH]
  }

  lemma FrameLayout(m: Message)
    requires Buildable(m)
    ensures var f := BuildFrame(m); var h := |m.head|; var n := |f|;
            && f[..h] == m.head
            && UIntAt(f, h, 2) == WrittenLength(m)
            && f[h + 2..h + 10] == EncodeImei(m.imei)
            && f[h + 10] == m.deviceId
            && f[h + 11..n - 10] == m.zone
            && f[n - 10..n - 3] == m.generatedTime
            && UIntAt(f, n - 3, 2) == m.serialNumber
            && f[n - 1] == HASH
  {
    var f := BuildFrame(m);
    var h, n := |m.head|, |f|;
    assert f[h..h + 2] == UIntBytes(WrittenLength(m), 2);
    assert f[n - 3..n - 1] == UIntBytes(m.serialNumber, 2);
    UIntRoundTrip(WrittenLength(m), 2, f, h);
    UIntRoundTrip(m.serialNumber, 2, f, n - 3);
  }

  lemma BuiltHead(m: Message)
    requires Buildable(m)
    ensures HeadColon(BuildFrame(m)) == IndexOf(BuildFrame(m), COLON, 0) == |m.head| - 1
  {
    var f := BuildFrame(m);
    FrameLayout(m);
    assert forall i :: 0 <= i < |m.head| ==> f[i] == f[..|m.head|][i];
    assert f[|m.head| - 1] == COLON;
  }

  /** The header `m` announces. */
  function HeaderOf(m: Message): Header {
    var token := AsciiString(m.head);
    Header(token, WrittenLength(m), |m.zone|, m.imei, m.deviceId,
           if |m.generatedTime| == 7 then GTime(m.generatedTime) else None, m.serialNumber)
  }

  /**
   * Frame-level round trip: kind, IMEI, device id, serial number, time and the exact
   * data zone come back; an overridden Length adds exactly the mismatch warning.
   */
  lemma FrameRoundTrip(number: AsciiZone.Numbers, m: Message)
    requires Buildable(m)
    ensures ParseFrame(number, BuildFrame(m)) ==
            Success(Assemble(ByToken(number), HeaderOf(m), m.zone,
                             FramingWarnings(true, WrittenLength(m), ActualLength(m))))
  {
    FrameRoundTripWith(ByToken(number), m);
  }

  lemma FrameRoundTripWith(bodyOf: BodyParser, m: Message)
    requires Buildable(m)
    ensures ParseFrameWith(bodyOf, BuildFrame(m)) ==
            Success(Assemble(bodyOf, HeaderOf(m), m.zone, FramingWarnings(true, WrittenLength(m), ActualLength(m))))
  {
    BuiltHeader(m);
    var h, n := |m.head|, |BuildFrame(m)|;
    LocatedFrame(bodyOf, BuildFrame(m), h, n - 1, HeaderOf(m), m.zone);
  }

  lemma BuiltHeader(m: Message)
    requires Buildable(m)
    ensures var f := BuildFrame(m); var h, n := |m.head|, |f|;
            && Locate(f) == Success(Section(h, n - 1))
            && ParseHeader(f, h, n - 1) == HeaderOf(m)
            && f[h + HEADER_PREFIX_BYTES..n - 1 - TRAILER_BYTES] == m.zone
  {
    FrameLayout(m);
    BuiltHead(m);
    ImeiRoundTrip(m.imei);
  }

  // ------------------------------------------------------------------
  // End to end
  // ------------------------------------------------------------------

  /** No `#` in the data zone, time and serial number from their tenth byte on. */
  ghost predicate Unambiguous(m: Message)
    requires Buildable(m)
  {
    HASH !in (m.zone + m.generatedTime + UIntBytes(m.serialNumber, 2))[MINIMUM_TRAILING_FIXED_BYTES - 9..]
  }

  /** The chunking condition on a frame, as one on the message it was built from, whatever Length it declares. */
  lemma RobustMessage(m: Message, max: nat)
    requires Buildable(m)
    ensures Framed(BuildFrame(m)) && (Scannable(BuildFrame(m)) <==> Unambiguous(m))
    ensures m.declaredLengthOverride.None? ==> Honest(BuildFrame(m))
    ensures Robust(BuildFrame(m), max) <==> |m.head| + 2 + ActualLength(m) <= max && Unambiguous(m)
  {
    FrameLayout(m);
    BuiltHead(m);
    NoHashInReach(m);
  }

  lemma NoHashInReach(m: Message)
    requires Buildable(m)
    ensures InnerHashFree(BuildFrame(m)) <==> Unambiguous(m)
  {
    var f := BuildFrame(m);
    FrameLayout(m);
    BuiltHead(m);
    var data := m.zone + m.generatedTime + UIntBytes(m.serialNumber, 2);
    var from := |m.head| + 11;
    assert data[9..] == f[from + 9..|f| - 1];
    assert InnerHashFree(f) <==> forall i :: from + 9 <= i < |f| - 1 ==> f[i] != HASH;
    NotInSlice(f, HASH, from + 9, |f| - 1);
  }

  lemma NotInSlice(s: Buffer, x: Byte, lo: nat, hi: nat)
    requires lo <= hi <= |s|
    ensures x !in s[lo..hi] <==> forall i :: lo <= i < hi ==> s[i] != x
  {
    assert forall i :: lo <= i < hi ==> s[i] == s[lo..hi][i - lo];
  }

  // ------------------------------------------------------------------
  // Devices that declare the total frame size
  // ------------------------------------------------------------------

  ghost predicate DeclaresTotal(m: Message) {
    Buildable(m) && m.declaredLengthOverride == Some(|m.head| + 2 + ActualLength(m) + 1)
  }

  lemma TotalSizeEnd(m: Message)
    requires DeclaresTotal(m)
    ensures HeadColon(BuildFrame(m)) >= 0 && |BuildFrame(m)| >= LengthFieldEnd(BuildFrame(m))
    ensures DeclaredEnd(BuildFrame(m)) == |BuildFrame(m)| + |m.head| + 3
  {
    FrameLayout(m);
    BuiltHead(m);
  }

  /**
   * The Length observed in the field: a frame that declares its total size. Followed by a frame
   * with an equally long head token, it is cut whole exactly if its own data holds no `#` within
   * reach of the scan and the second device's IMEI does not begin with 35, whose first byte is a `#`.
   */
  lemma TotalSizeDeclared(m: Message, g: Message, x: Buffer)
    requires DeclaresTotal(m) && Buildable(g) && |m.head| == |g.head|
    ensures Survives(BuildFrame(m), BuildFrame(g) + x) <==> Unambiguous(m) && g.imei[..2] != "35"
    ensures var f := BuildFrame(m);
            && (Resolve(f + (BuildFrame(g) + x)) == FrameLength(|f|, false) <==> Unambiguous(m) && g.imei[..2] != "35")
            && (g.imei[..2] == "35" ==> Resolve(f + (BuildFrame(g) + x)) == FrameLength(|f| + |g.head| + 3, true))
  {
    var f, next := BuildFrame(m), BuildFrame(g) + x;
    RobustMessage(m, 0);
    TotalSizeEnd(m);
    var end := DeclaredEnd(f);
    assert (f + next)[end - 1] == next[|g.head| + 2] == BuildFrame(g)[|g.head| + 2];
    FirstImeiByte(g);
    FallbackRecovers(f, next);
    if Misled(f, next) {
      MisledEnd(f, next);
    }
  }

  /** Such a frame at the end of the stream. */
  lemma TotalSizeLast(m: Message)
    requires DeclaresTotal(m)
    ensures Survives(BuildFrame(m), []) <==> Unambiguous(m)
  {
    RobustMessage(m, 0);
    TotalSizeEnd(m);
  }

  ghost predicate AllDeclareTotal(ms: seq<Message>, headLength: nat) {
    forall m :: m in ms ==> DeclaresTotal(m) && |m.head| == headLength
  }

  function FramesOf(ms: seq<Message>, headLength: nat): (fs: seq<Buffer>)
    requires AllDeclareTotal(ms, headLength)
    ensures |fs| == |ms| && forall i :: 0 <= i < |ms| ==> fs[i] == BuildFrame(ms[i])
  {
    seq(|ms|, i requires 0 <= i < |ms| => BuildFrame(ms[i]))
  }

  ghost predicate NoneBeginsWith35(ms: seq<Message>) {
    forall m :: m in ms ==> |m.imei| >= 2 && m.imei[..2] != "35"
  }

  ghost predicate AllUnambiguous(ms: seq<Message>) {
    forall m :: m in ms ==> Buildable(m) && Unambiguous(m)
  }

  /** The first frame of such a stream. */
  lemma TotalSizeFirst(ms: seq<Message>, headLength: nat)
    requires AllDeclareTotal(ms, headLength) && ms != []
    ensures var fs := FramesOf(ms, headLength);
            && fs[1..] == FramesOf(ms[1..], headLength)
            && (Survives(fs[0], Flatten(fs[1..]) + []) <==>
                  Unambiguous(ms[0]) && (|ms| > 1 ==> ms[1].imei[..2] != "35"))
  {
    var fs := FramesOf(ms, headLength);
    assert ms[0] in ms;
    if |ms| == 1 {
      TotalSizeLast(ms[0]);
    } else {
      assert ms[1] in ms;
      var x := Flatten(fs[1..][1..]);
      assert Flatten(fs[1..]) + [] == BuildFrame(ms[1]) + x;
      TotalSizeDeclared(ms[0], ms[1], x);
    }
  }

  lemma FleetCons(ms: seq<Message>)
    requires ms != []
    ensures AllUnambiguous(ms) <==> Buildable(ms[0]) && Unambiguous(ms[0]) && AllUnambiguous(ms[1..])
    ensures NoneBeginsWith35(ms) <==> |ms[0].imei| >= 2 && ms[0].imei[..2] != "35" && NoneBeginsWith35(ms[1..])
  {
    assert ms == [ms[0]] + ms[1..];
  }

  lemma {:induction false} TotalSizeSurvival(ms: seq<Message>, headLength: nat)
    requires AllDeclareTotal(ms, headLength)
    ensures AllSurvive(FramesOf(ms, headLength), []) <==>
            AllUnambiguous(ms) && (ms != [] ==> NoneBeginsWith35(ms[1..]))
  {
    if ms != [] {
      TotalSizeFirst(ms, headLength);
      TotalSizeSurvival(ms[1..], headLength);
      assert ms[0] in ms;
      FleetCons(ms);
      if |ms| > 1 {
        assert ms[1] in ms;
        FleetCons(ms[1..]);
      }
    }
  }

  /**
   * A fleet that declares total sizes, exactly: every way of cutting the stream delivers all its
   * frames if and only if none holds a `#` within reach of the scan, each fits the buffer without
   * its terminator, and no IMEI but the first begins with 35.
   */
  lemma TotalSizeStream(ms: seq<Message>, headLength: nat, max: nat)
    requires AllDeclareTotal(ms, headLength)
    ensures AlwaysDelivers(FramesOf(ms, headLength), max) <==>
            && AllUnambiguous(ms)
            && (forall m :: m in ms ==> |m.head| + 2 + ActualLength(m) <= max)
            && (ms != [] ==> NoneBeginsWith35(ms[1..]))
  {
    var fs := FramesOf(ms, headLength);
    ChunkIndependence(fs, max);
    TotalSizeSurvival(ms, headLength);
    forall i | 0 <= i < |ms|
      ensures Robust(fs[i], max) <==> |ms[i].head| + 2 + ActualLength(ms[i]) <= max && Unambiguous(ms[i])
    {
      assert ms[i] in ms;
      RobustMessage(ms[i], max);
    }
    EachOf(ms, fs, max);
  }

  lemma EachOf(ms: seq<Message>, fs: seq<Buffer>, max: nat)
    requires |fs| == |ms| && forall m :: m in ms ==> Buildable(m)
    requires forall i :: 0 <= i < |ms| ==>
               (Robust(fs[i], max) <==> |ms[i].head| + 2 + ActualLength(ms[i]) <= max && Unambiguous(ms[i]))
    ensures (forall f :: f in fs ==> Robust(f, max)) <==>
            AllUnambiguous(ms) && forall m :: m in ms ==> |m.head| + 2 + ActualLength(m) <= max
  {
    if forall f :: f in fs ==> Robust(f, max) {
      forall m | m in ms
        ensures Unambiguous(m) && |m.head| + 2 + ActualLength(m) <= max
      {
        var i :| 0 <= i < |ms| && ms[i] == m;
        assert fs[i] in fs;
      }
    }
  }

  /** Two such frames exist: the first swallows eight bytes of the second. */
  lemma SwallowWitness() returns (m: Message, g: Message)
    ensures Buildable(m) && Buildable(g) && g.declaredLengthOverride.None?
    ensures Resolve(BuildFrame(m) + BuildFrame(g)) == FrameLength(|BuildFrame(m)| + 8, true)
  {
    var head: Buffer, time: Buffer := [0x2B, 0x52, 0x50, 0x54, 0x3A], [7, 234, 7, 7, 12, 34, 56];
    assert head[4] == COLON && COLON !in head[..4];
    var imei := "35" + seq(13, _ => '7');
    assert IsImei(imei) && imei[..2] == "35";
    m := Message(head, imei, 0x20, [], time, 1, Some(26));
    g := Message(head, imei, 0x20, [], time, 2, None);
    assert BuildFrame(g) + [] == BuildFrame(g);
    TotalSizeDeclared(m, g, []);
  }

  lemma FirstImeiByte(g: Message)
    requires Buildable(g)
    ensures BuildFrame(g)[|g.head| + 2] == HASH <==> g.imei[..2] == "35"
  {
    FrameLayout(g);
    assert BuildFrame(g)[|g.head| + 2..|g.head| + 10][0] == EncodeImei(g.imei)[0];
    var digits := g.imei[..14];
    assert EncodeImei(g.imei)[0] == PairBytes(digits)[0];
    assert PairBytes(digits)[0] as nat == 10 * DigitValue(digits[0]) + DigitValue(digits[1]);
    assert g.imei[..2] == [digits[0], digits[1]];
    assert DigitValue('3') == 3 && DigitValue('5') == 5;
  }

  ghost predicate AllBuildable(ms: seq<Message>) {
    forall m :: m in ms ==> Buildable(m) && m.declaredLengthOverride.None?
  }

  function BuildAll(ms: seq<Message>): (fs: seq<Buffer>)
    requires AllBuildable(ms)
    ensures |fs| == |ms| && forall i :: 0 <= i < |ms| ==> fs[i] == BuildFrame(ms[i])
  {
    seq(|ms|, i requires 0 <= i < |ms| => BuildFrame(ms[i]))
  }

  /** The parsed form of an honest message. */
  function ParsedMessage(number: AsciiZone.Numbers, m: Message): ParsedFrame {
    Assemble(ByToken(number), HeaderOf(m), m.zone, [])
  }

  /**
   * The whole ingest pipeline: any messages, concatenated and cut into any chunks that
   * fit the buffer, come out of splitter and parser as the same messages in the same
   * order, without framing warnings, provided none holds a `#` within reach of the scan.
   */
  lemma EndToEnd(number: AsciiZone.Numbers, ms: seq<Message>, chunks: seq<Buffer>, max: nat)
    requires AllBuildable(ms) && Flatten(chunks) == Flatten(BuildAll(ms))
    requires forall m :: m in ms ==> Unambiguous(m) && |m.head| + 2 + ActualLength(m) <= max
    ensures var r := Feed([], chunks, max);
            && r.pending == []
            && |Emitted(r.segments)| == |ms|
            && forall i :: 0 <= i < |ms| ==>
                 ParseFrame(number, Emitted(r.segments)[i]) == Success(ParsedMessage(number, ms[i]))
  {
    var fs := BuildAll(ms);
    RobustMessages(ms, fs, max);
    HonestChunks(fs, max);
    assert Delivers([], chunks, fs, max);
    AllParse(number, ms, fs);
  }

  lemma AllParse(number: AsciiZone.Numbers, ms: seq<Message>, fs: seq<Buffer>)
    requires AllBuildable(ms) && fs == BuildAll(ms)
    ensures forall i :: 0 <= i < |ms| ==> ParseFrame(number, fs[i]) == Success(ParsedMessage(number, ms[i]))
  {
    forall i | 0 <= i < |ms|
      ensures ParseFrame(number, fs[i]) == Success(ParsedMessage(number, ms[i]))
    {
      assert ms[i] in ms;
      FrameRoundTrip(number, ms[i]);
    }
  }

  lemma RobustMessages(ms: seq<Message>, fs: seq<Buffer>, max: nat)
    requires AllBuildable(ms) && fs == BuildAll(ms)
    requires forall m :: m in ms ==> Unambiguous(m) && |m.head| + 2 + ActualLength(m) <= max
    ensures AllHonest(fs) && forall f :: f in fs ==> Robust(f, max)
  {
    forall f | f in fs
      ensures Honest(f) && Robust(f, max)
    {
      var i :| 0 <= i < |fs| && fs[i] == f;
      assert ms[i] in ms;
      RobustMessage(ms[i], max);
    }
  }
}
