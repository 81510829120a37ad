/** A whole StarLink line: header numbers, and the event report behind message type 6. */
module StarlinkFrame {
  import opened Commas
  import opened Wrappers
  import opened StarlinkLine
  import opened StarlinkReport

  const EVENT_REPORT_MESSAGE_TYPE := 6

  datatype Header = Header(head: Option<char>, deviceId: string, messageType: nat, messageIndex: nat,
                           checksumHex: string)

  /** `warnings` are those of the event report; a line of another type has no report and one warning that says so. */
  datatype Frame = Frame(header: Header, rawData: string, report: Option<Payload>, warnings: seq<Warning>)

  function HeaderOf(p: Parts): Header
    requires WellFormed(p)
  {
    Header(p.head, p.deviceId, DecimalValue(p.messageType), DecimalValue(p.messageIndex), p.checksumHex)
  }

  function TagsOf(formatTags: seq<string>): (tags: seq<Tag>)
    ensures |tags| == |formatTags| && forall i :: 0 <= i < |tags| ==> tags[i] == TagOf(formatTags[i])
  {
    seq(|formatTags|, i requires 0 <= i < |formatTags| => TagOf(formatTags[i]))
  }

  /** `parseFrame`. */
  function ParseFrame(c: Codecs, line: string, formatTags: seq<string>): Result<Frame, LineError> {
    var p :- ParseLine(line);
    var header := HeaderOf(p);
    if header.messageType == EVENT_REPORT_MESSAGE_TYPE then
      var d := DecodeReport(c, TagsOf(formatTags), SplitCommas(p.data));
      Success(Frame(header, p.data, Some(d.payload), d.warnings))
    else Success(Frame(header, p.data, None, [TypeNotDecoded(header.messageType)]))
  }

  method Parse(c: Codecs, line: string, formatTags: seq<string>) returns (r: Result<Frame, LineError>)
    ensures r == ParseFrame(c, line, formatTags)
  {
    var p :- ParseLine(line);
    var header := HeaderOf(p);
    if header.messageType != EVENT_REPORT_MESSAGE_TYPE {
      return Success(Frame(header, p.data, None, [TypeNotDecoded(header.messageType)]));
    }
    var decoder := new EventReportDecoder(c);
    decoder.ParseEventReport(SplitCommas(p.data), TagsOf(formatTags));
    r := Success(Frame(header, p.data, Some(decoder.payload), decoder.warnings));
    assert Decoded(decoder.payload, decoder.warnings) == DecodeReport(c, TagsOf(formatTags), SplitCommas(p.data));
  }

  /** A line printed from numbers and fields. */
  function PrintReport(h: Header, fields: seq<string>): Parts
    requires fields != []
  {
    Parts(h.head, h.deviceId, Decimal(h.messageType), Decimal(h.messageIndex), JoinCommas(fields), h.checksumHex)
  }

  /**
   * An event report, printed with any header and any fields, comes back with the same header and the
   * decoding of those fields.
   */
  lemma EventReportRoundTrip(c: Codecs, formatTags: seq<string>, h: Header, fields: seq<string>)
    requires fields != [] && CommaFree(fields) && WellFormed(PrintReport(h, fields))
    requires h.messageType == 6 && (h.head.Some? ==> !IsWhitespace(h.head.value))
    ensures var d := DecodeReport(c, TagsOf(formatTags), fields);
            ParseFrame(c, Print(PrintReport(h, fields)), formatTags) ==
            Success(Frame(h, JoinCommas(fields), Some(d.payload), d.warnings))
  {
    var p := PrintReport(h, fields);
    assert "" + Print(p) + "" == Print(p);
    TrimmedRoundTrip("", p, "");
    DecimalRoundTrip(h.messageType);
    DecimalRoundTrip(h.messageIndex);
    SplitOfJoin(fields);
  }

  /** A line of any other message type comes back with its header and its data undecoded. */
  lemma OtherTypesUndecoded(c: Codecs, formatTags: seq<string>, h: Header, fields: seq<string>)
    requires fields != [] && WellFormed(PrintReport(h, fields))
    requires h.messageType != 6 && (h.head.Some? ==> !IsWhitespace(h.head.value))
    ensures ParseFrame(c, Print(PrintReport(h, fields)), formatTags) ==
            Success(Frame(h, JoinCommas(fields), None, [TypeNotDecoded(h.messageType)]))
  {
    var p := PrintReport(h, fields);
    assert "" + Print(p) + "" == Print(p);
    TrimmedRoundTrip("", p, "");
    DecimalRoundTrip(h.messageType);
    DecimalRoundTrip(h.messageIndex);
  }

  /**
   * What a line is parsed to, by its pieces: the two numbers of the header in their decimal reading, the
   * data as they are, and the event report of the fields between its commas exactly for message type 6.
   */
  lemma PiecesOfLine(c: Codecs, line: string, formatTags: seq<string>, p: Parts, fields: seq<string>)
    requires ParseLine(line) == Success(p) && fields != [] && CommaFree(fields) && p.data == JoinCommas(fields)
    ensures All(p.messageType, IsDigit) && All(p.messageIndex, IsDigit)
    ensures var r := ParseFrame(c, line, formatTags);
            && r.Success?
            && r.value.header.head == p.head && r.value.header.deviceId == p.deviceId
            && r.value.header.messageType == DecimalValue(p.messageType)
            && r.value.header.messageIndex == DecimalValue(p.messageIndex)
            && r.value.header.checksumHex == p.checksumHex && r.value.rawData == p.data
            && (DecimalValue(p.messageType) == 6 ==>
                  var d := DecodeReport(c, TagsOf(formatTags), fields);
                  r.value.report == Some(d.payload) && r.value.warnings == d.warnings)
            && (DecimalValue(p.messageType) != 6 ==>
                  r.value.report == None && r.value.warnings == [TypeNotDecoded(DecimalValue(p.messageType))])
  {
    ExecIsTheMatch(Trim(line), p);
    SplitOfJoin(fields);
  }
}
