/** ASCII data zones: comma-separated fields, the command key, and the fence records among the fields. */
module AsciiZone {
  import opened Commas
  import opened Wrappers
  import PeoFences

  /** `Number()` on a field; `None` is `NaN` or an infinity. */
  type Numbers = string -> Option<real>

  datatype AsciiData = AsciiData(raw: string, fields: seq<string>, commandKey: Option<string>,
                                 peoFences: seq<PeoFences.Fence>)

  /** A field as the fence scanner sees it. */
  function Seen(number: Numbers, field: string): PeoFences.Field {
    if field == "PEO" then PeoFences.Marker
    else if number(field).Some? then PeoFences.Finite(number(field).value)
    else PeoFences.Other(field)
  }

  function SeenAll(number: Numbers, fields: seq<string>): (r: seq<PeoFences.Field>)
    ensures |r| == |fields| && forall i :: 0 <= i < |fields| ==> r[i] == Seen(number, fields[i])
  {
    seq(|fields|, i requires 0 <= i < |fields| => Seen(number, fields[i]))
  }

  function FieldsOf(raw: string): seq<string> {
    if |raw| > 0 then SplitCommas(raw) else []
  }

  /** `fields[0] || undefined`. */
  function CommandKey(fields: seq<string>): Option<string> {
    if fields != [] && fields[0] != "" then Some(fields[0]) else None
  }

  function Parse(number: Numbers, raw: string): (AsciiData, seq<PeoFences.Warning>) {
    var fields := FieldsOf(raw);
    var scan := PeoFences.ScanFrom(SeenAll(number, fields), 0);
    (AsciiData(raw, fields, CommandKey(fields), scan.fences), scan.warnings)
  }

  method ParseAsciiDataZone(number: Numbers, raw: string) returns (ascii: AsciiData, warnings: seq<PeoFences.Warning>)
    ensures (ascii, warnings) == Parse(number, raw)
  {
    var fields := if |raw| > 0 then SplitCommas(raw) else [];
    var peoFences, fenceWarnings, turns := PeoFences.ParsePeoFenceList(SeenAll(number, fields));
    ascii := AsciiData(raw, fields, CommandKey(fields), peoFences);
    warnings := fenceWarnings;
  }

  /** A text is the marker exactly if it is "PEO", otherwise what `Number()` makes of it. */
  predicate Shows(number: Numbers, text: string, field: PeoFences.Field) {
    match field
    case Marker => text == ['P', 'E', 'O']
    case Finite(x) => text != ['P', 'E', 'O'] && number(text) == Some(x)
    case Other(other) => text != ['P', 'E', 'O'] && number(text) == None && text == other
  }

  lemma SeenIsShown(number: Numbers, text: string, field: PeoFences.Field)
    ensures Shows(number, text, field) <==> Seen(number, text) == field
  {
    assert "PEO" == ['P', 'E', 'O'];
  }

  /**
   * Any text is its fields joined by commas; its first field, unless empty, is the command key; and its
   * fences are those of the fields as they are shown.
   */
  lemma TextDecodes(number: Numbers, texts: seq<string>, shown: seq<PeoFences.Field>)
    requires texts != [] && CommaFree(texts) && |shown| == |texts|
    requires forall i :: 0 <= i < |texts| ==> Shows(number, texts[i], shown[i])
    ensures JoinCommas(texts) != "" ==>
              var (ascii, ws) := Parse(number, JoinCommas(texts));
              && ascii.raw == JoinCommas(texts) && ascii.fields == texts
              && ascii.commandKey == (if texts[0] == "" then None else Some(texts[0]))
              && ascii.peoFences == PeoFences.ScanFrom(shown, 0).fences
              && ws == PeoFences.ScanFrom(shown, 0).warnings
    ensures Parse(number, "") == (AsciiData("", [], None, []), [])
  {
    SplitOfJoin(texts);
    forall i | 0 <= i < |texts|
      ensures SeenAll(number, texts)[i] == shown[i]
    {
      SeenIsShown(number, texts[i], shown[i]);
    }
    assert SeenAll(number, texts) == shown;
  }

  /** The text of any fence records, among any other fields, decodes to the fences without warnings. */
  lemma FenceTextDecodes(number: Numbers, texts: seq<string>, items: seq<PeoFences.Item>)
    requires texts != [] && CommaFree(texts) && JoinCommas(texts) != ""
    requires PeoFences.AllSound(items) && |texts| == |PeoFences.EncodeItems(items)|
    requires forall i :: 0 <= i < |texts| ==> Shows(number, texts[i], PeoFences.EncodeItems(items)[i])
    ensures Parse(number, JoinCommas(texts)) ==
            (AsciiData(JoinCommas(texts), texts, if texts[0] == "" then None else Some(texts[0]),
                       PeoFences.FencesOf(items)), [])
  {
    TextDecodes(number, texts, PeoFences.EncodeItems(items));
    PeoFences.PeoRoundTrip(items);
  }
}
