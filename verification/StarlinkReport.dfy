/** Decoding the comma-separated event report of a StarLink line, tag by tag. */
module StarlinkReport {
  import opened Wrappers
  import Bytes

  /** There are four digital inputs and four outputs. */
  type Channel = n: nat | 1 <= n <= 4 witness 1

  /** The tags the decoder knows; every other tag string is `OtherTag`. */
  datatype Tag =
    | EDT | EID | PDT | LAT | LONG | SPD | HEAD | ODO | IN(n: Channel) | OUT(n: Channel)
    | LAC | CID | VIN | VBAT | DEST | IGN | ENG | OtherTag(name: string)

  /** The tag a format string stands for. */
  function TagOf(text: string): Tag {
    if ChannelTag(text).OtherTag? then PlainTag(text) else ChannelTag(text)
  }

  /** A tag with a channel number. */
  function ChannelTag(text: string): Tag {
    if text == "#IN1#" then IN(1)
    else if text == "#IN2#" then IN(2)
    else if text == "#IN3#" then IN(3)
    else if text == "#IN4#" then IN(4)
    else if text == "#OUT1#" then OUT(1)
    else if text == "#OUT2#" then OUT(2)
    else if text == "#OUT3#" then OUT(3)
    else if text == "#OUT4#" then OUT(4)
    else OtherTag(text)
  }

  /** A tag without one. */
  function PlainTag(text: string): Tag {
    if text == "#EDT#" then EDT
    else if text == "#EID#" then EID
    else if text == "#PDT#" then PDT
    else if text == "#LAT#" then LAT
    else if text == "#LONG#" then LONG
    else if text == "#SPD#" then SPD
    else if text == "#HEAD#" then HEAD
    else if text == "#ODO#" then ODO
    else if text == "#LAC#" then LAC
    else if text == "#CID#" then CID
    else if text == "#VIN#" then VIN
    else if text == "#VBAT#" then VBAT
    else if text == "#DEST#" then DEST
    else if text == "#IGN#" then IGN
    else if text == "#ENG#" then ENG
    else OtherTag(text)
  }

  function TextOf(tag: Tag): string {
    match tag
    case EDT => "#EDT#"
    case EID => "#EID#"
    case PDT => "#PDT#"
    case LAT => "#LAT#"
    case LONG => "#LONG#"
    case SPD => "#SPD#"
    case HEAD => "#HEAD#"
    case ODO => "#ODO#"
    case IN(n) => if n == 1 then "#IN1#" else if n == 2 then "#IN2#" else if n == 3 then "#IN3#" else "#IN4#"
    case OUT(n) => if n == 1 then "#OUT1#" else if n == 2 then "#OUT2#" else if n == 3 then "#OUT3#" else "#OUT4#"
    case LAC => "#LAC#"
    case CID => "#CID#"
    case VIN => "#VIN#"
    case VBAT => "#VBAT#"
    case DEST => "#DEST#"
    case IGN => "#IGN#"
    case ENG => "#ENG#"
    case OtherTag(name) => name
  }

  /** No tag string is confused with another one, known or not. */
  lemma TagKeepsText(text: string)
    ensures TextOf(TagOf(text)) == text
  {
    ChannelTagKeepsText(text);
    PlainTagKeepsText(text);
  }

  lemma ChannelTagKeepsText(text: string)
    ensures TextOf(ChannelTag(text)) == text
  {}

  lemma PlainTagKeepsText(text: string)
    ensures TextOf(PlainTag(text)) == text
  {}

  /** The library's number and time parsers; `None` is a thrown error, except for `dateTime`, which returns null. */
  datatype Codecs = Codecs(
    strictInt: string -> Option<int>,
    strictFloat: string -> Option<real>,
    coordinate: string -> Option<real>,
    dateTime: string -> Option<int>)

  datatype Payload = Payload(
    deviceTime: Option<Option<int>>, fixTime: Option<Option<int>>, eventId: Option<int>,
    latitude: Option<real>, longitude: Option<real>, speedKnots: Option<real>, course: Option<int>,
    odometerM: Option<int>,
    digitalInputs: map<Channel, int>, digitalOutputs: map<Channel, int>, lac: Option<int>, cid: Option<int>,
    mainPowerVoltage: Option<real>, batteryVoltage: Option<real>, destination: Option<string>, ignition: Option<bool>,
    unsupportedTags: seq<Tag>)

  const EMPTY := Payload(None, None, None, None, None, None, None, None, map[], map[], None, None, None, None, None,
                         None, [])

  datatype Warning =
    | FailedTag(index: nat) | ExtraFields | UnsupportedTags(tags: seq<Tag>) | TypeNotDecoded(messageType: nat)

  // ------------------------------------------------------------------
  // Specification
  // ------------------------------------------------------------------

  /** The codec of this tag throws on the value. */
  predicate Throws(c: Codecs, tag: Tag, value: string) {
    match tag
    case EDT => false
    case PDT => false
    case LAT => c.coordinate(value).None?
    case LONG => c.coordinate(value).None?
    case SPD => c.strictFloat(value).None?
    case ODO => c.strictFloat(value).None?
    case VIN => c.strictFloat(value).None?
    case VBAT => c.strictFloat(value).None?
    case DEST => false
    case OtherTag(_) => false
    case _ => c.strictInt(value).None?
  }

  /** The ignition state a field reports, if it reports one. */
  function IgnitionOf(c: Codecs, tag: Tag, value: string): Option<bool> {
    if value == "" || Throws(c, tag, value) then None
    else
      match tag
      case EID =>
        if c.strictInt(value) == Some(24) then Some(true)
        else if c.strictInt(value) == Some(25) then Some(false)
        else None
      case IGN => Some(c.strictInt(value).value > 0)
      case ENG => Some(c.strictInt(value).value > 0)
      case _ => None
  }

  /** `Math.round(x * 1000)`. */
  function Thousandths(x: real): int {
    (x * 1000.0 + 0.5).Floor
  }

  /** The payload after a field whose codec does not throw. */
  function Applied(c: Codecs, tag: Tag, value: string, p: Payload): Payload
    requires !Throws(c, tag, value)
  {
    match tag
    case EDT => p.(deviceTime := Some(c.dateTime(value)))
    case PDT => p.(fixTime := Some(c.dateTime(value)))
    case EID =>
      var id := c.strictInt(value).value;
      p.(eventId := Some(id), ignition := if id == 24 then Some(true) else if id == 25 then Some(false) else p.ignition)
    case LAT => p.(latitude := c.coordinate(value))
    case LONG => p.(longitude := c.coordinate(value))
    case SPD => p.(speedKnots := c.strictFloat(value))
    case HEAD => p.(course := c.strictInt(value))
    case ODO => p.(odometerM := Some(Thousandths(c.strictFloat(value).value)))
    case IN(n) => p.(digitalInputs := p.digitalInputs[n := c.strictInt(value).value])
    case OUT(n) => p.(digitalOutputs := p.digitalOutputs[n := c.strictInt(value).value])
    case LAC => p.(lac := c.strictInt(value))
    case CID => p.(cid := c.strictInt(value))
    case VIN => p.(mainPowerVoltage := c.strictFloat(value))
    case VBAT => p.(batteryVoltage := c.strictFloat(value))
    case DEST => p.(destination := Some(value))
    case IGN => p.(ignition := Some(c.strictInt(value).value > 0))
    case ENG => p.(ignition := Some(c.strictInt(value).value > 0))
    case OtherTag(_) => p.(unsupportedTags := p.unsupportedTags + [tag])
  }

  datatype Decoded = Decoded(payload: Payload, warnings: seq<Warning>)

  /** The first `n` fields, in format order. */
  function DecodeFields(c: Codecs, tags: seq<Tag>, fields: seq<string>, n: nat): Decoded
    requires n <= |tags| && n <= |fields|
  {
    if n == 0 then Decoded(EMPTY, [])
    else
      var d, i := DecodeFields(c, tags, fields, n - 1), n - 1;
      if fields[i] == "" then d
      else if Throws(c, tags[i], fields[i]) then d.(warnings := d.warnings + [FailedTag(i)])
      else d.(payload := Applied(c, tags[i], fields[i], d.payload))
  }

  function FieldCount(tags: seq<Tag>, fields: seq<string>): (n: nat)
    ensures n <= |tags| && n <= |fields|
  {
    if |fields| < |tags| then |fields| else |tags|
  }

  /** The warnings about the report as a whole. */
  function Closing(tags: seq<Tag>, fieldCount: nat, unsupportedTags: seq<Tag>): seq<Warning> {
    (if fieldCount > |tags| then [ExtraFields] else []) +
    (if unsupportedTags != [] then [UnsupportedTags(unsupportedTags)] else [])
  }

  function DecodeReport(c: Codecs, tags: seq<Tag>, fields: seq<string>): Decoded {
    var d := DecodeFields(c, tags, fields, FieldCount(tags, fields));
    d.(warnings := d.warnings + Closing(tags, |fields|, d.payload.unsupportedTags))
  }

  // ------------------------------------------------------------------
  // The decoder
  // ------------------------------------------------------------------

  class EventReportDecoder {
    const codecs: Codecs
    var payload: Payload
    var warnings: seq<Warning>

    constructor (codecs: Codecs)
      ensures this.codecs == codecs && payload == EMPTY && warnings == []
    {
      this.codecs := codecs;
      payload, warnings := EMPTY, [];
    }

    /** `applyTag`: it converts before it stores, so a throw leaves the payload as it was. */
    method ApplyTag(tag: Tag, value: string) returns (threw: bool)
      modifies this`payload
      ensures threw <==> Throws(codecs, tag, value)
      ensures payload == if threw then old(payload) else Applied(codecs, tag, value, old(payload))
    {
      match tag
      case EDT =>
        payload := payload.(deviceTime := Some(codecs.dateTime(value)));
        threw := false;
      case PDT =>
        payload := payload.(fixTime := Some(codecs.dateTime(value)));
        threw := false;
      case LAT => threw := StoreCoordinate(tag, value);
      case LONG => threw := StoreCoordinate(tag, value);
      case SPD => threw := StoreFloat(tag, value);
      case ODO => threw := StoreFloat(tag, value);
      case VIN => threw := StoreFloat(tag, value);
      case VBAT => threw := StoreFloat(tag, value);
      case DEST =>
        payload := payload.(destination := Some(value));
        threw := false;
      case OtherTag(_) =>
        payload := payload.(unsupportedTags := payload.unsupportedTags + [tag]);
        threw := false;
      case _ => threw := StoreInt(tag, value);
    }

    method StoreCoordinate(tag: Tag, value: string) returns (threw: bool)
      requires tag.LAT? || tag.LONG?
      modifies this`payload
      ensures threw <==> Throws(codecs, tag, value)
      ensures payload == if threw then old(payload) else Applied(codecs, tag, value, old(payload))
    {
      var degrees := codecs.coordinate(value);
      if degrees.None? {
        return true;
      }
      payload := if tag.LAT? then payload.(latitude := degrees) else payload.(longitude := degrees);
      return false;
    }

    method StoreFloat(tag: Tag, value: string) returns (threw: bool)
      requires tag.SPD? || tag.ODO? || tag.VIN? || tag.VBAT?
      modifies this`payload
      ensures threw <==> Throws(codecs, tag, value)
      ensures payload == if threw then old(payload) else Applied(codecs, tag, value, old(payload))
    {
      var x := codecs.strictFloat(value);
      if x.None? {
        return true;
      }
      match tag
      case SPD => payload := payload.(speedKnots := x); return false;
      case ODO => payload := payload.(odometerM := Some(Thousandths(x.value))); return false;
      case VIN => payload := payload.(mainPowerVoltage := x); return false;
      case VBAT => payload := payload.(batteryVoltage := x); return false;
    }

    method StoreInt(tag: Tag, value: string) returns (threw: bool)
      requires tag.EID? || tag.HEAD? || tag.IN? || tag.OUT? || tag.LAC? || tag.CID? || tag.IGN? || tag.ENG?
      modifies this`payload
      ensures threw <==> Throws(codecs, tag, value)
      ensures payload == if threw then old(payload) else Applied(codecs, tag, value, old(payload))
    {
      var x := codecs.strictInt(value);
      if x.None? {
        return true;
      }
      match tag
      case EID =>
        payload := payload.(eventId := x);
        if x.value == 24 {
          payload := payload.(ignition := Some(true));
        } else if x.value == 25 {
          payload := payload.(ignition := Some(false));
        }
        return false;
      case HEAD => payload := payload.(course := x); return false;
      case IN(n) => payload := payload.(digitalInputs := payload.digitalInputs[n := x.value]); return false;
      case OUT(n) => payload := payload.(digitalOutputs := payload.digitalOutputs[n := x.value]); return false;
      case LAC => payload := payload.(lac := x); return false;
      case CID => payload := payload.(cid := x); return false;
      case IGN => payload := payload.(ignition := Some(x.value > 0)); return false;
      case ENG => payload := payload.(ignition := Some(x.value > 0)); return false;
    }

    /** `parseEventReport` behind the split on commas. */
    method ParseEventReport(fields: seq<string>, tags: seq<Tag>)
      requires payload == EMPTY && warnings == []
      modifies this
      ensures Decoded(payload, warnings) == DecodeReport(codecs, tags, fields)
    {
      var fieldCount := FieldCount(tags, fields);
      for i := 0 to fieldCount
        invariant Decoded(payload, warnings) == DecodeFields(codecs, tags, fields, i)
      {
        if fields[i] == "" {
          continue;
        }
        var threw := ApplyTag(tags[i], fields[i]);
        if threw {
          warnings := warnings + [FailedTag(i)];
        }
      }
      ghost var before := warnings;
      if |fields| > |tags| {
        warnings := warnings + [ExtraFields];
      }
      if |payload.unsupportedTags| > 0 {
        warnings := warnings + [UnsupportedTags(payload.unsupportedTags)];
      }
      assert warnings == before + Closing(tags, |fields|, payload.unsupportedTags);
    }
  }

  // ------------------------------------------------------------------
  // A throwing field acts as an absent one
  // ------------------------------------------------------------------

  /** `ws` without the warning about field `i`. */
  function Without(ws: seq<Warning>, i: nat): seq<Warning> {
    if ws == [] then []
    else Without(ws[..|ws| - 1], i) + (if ws[|ws| - 1] == FailedTag(i) then [] else [ws[|ws| - 1]])
  }

  lemma WithoutSnoc(ws: seq<Warning>, w: Warning, i: nat)
    ensures Without(ws + [w], i) == Without(ws, i) + (if w == FailedTag(i) then [] else [w])
  {
    assert (ws + [w])[..|ws|] == ws;
  }

  lemma {:induction false} WithoutNothing(c: Codecs, tags: seq<Tag>, fields: seq<string>, n: nat, i: nat)
    requires n <= |tags| && n <= |fields| && n <= i
    ensures Without(DecodeFields(c, tags, fields, n).warnings, i) == DecodeFields(c, tags, fields, n).warnings
  {
    if n > 0 {
      WithoutNothing(c, tags, fields, n - 1, i);
      WithoutSnoc(DecodeFields(c, tags, fields, n - 1).warnings, FailedTag(n - 1), i);
    }
  }

  lemma {:induction false} BlankedPrefix(c: Codecs, tags: seq<Tag>, fields: seq<string>, i: nat, n: nat)
    requires n <= |tags| && n <= |fields| && i < |fields| && i < |tags|
    requires fields[i] != "" && Throws(c, tags[i], fields[i])
    ensures var d, e := DecodeFields(c, tags, fields, n), DecodeFields(c, tags, fields[i := ""], n);
            && e.payload == d.payload
            && e.warnings == Without(d.warnings, i)
            && |d.warnings| == |e.warnings| + if i < n then 1 else 0
  {
    if n > 0 {
      BlankedPrefix(c, tags, fields, i, n - 1);
      var d := DecodeFields(c, tags, fields, n - 1);
      WithoutSnoc(d.warnings, FailedTag(n - 1), i);
    }
  }

  /**
   * For any format and any fields, blanking a value whose codec throws gives the same
   * payload and the same warnings but the one about that value.
   */
  lemma ThrowingActsAsAbsent(c: Codecs, tags: seq<Tag>, fields: seq<string>, i: nat)
    requires i < FieldCount(tags, fields) && fields[i] != "" && Throws(c, tags[i], fields[i])
    ensures var d, e := DecodeReport(c, tags, fields), DecodeReport(c, tags, fields[i := ""]);
            && e.payload == d.payload
            && e.warnings == Without(d.warnings, i)
            && |d.warnings| == |e.warnings| + 1
  {
    var n := FieldCount(tags, fields);
    BlankedPrefix(c, tags, fields, i, n);
    var d := DecodeFields(c, tags, fields, n);
    var tail := Closing(tags, |fields|, d.payload.unsupportedTags);
    WithoutClosing(d.warnings, tail, i);
  }

  lemma {:induction false} WithoutClosing(ws: seq<Warning>, tail: seq<Warning>, i: nat)
    requires FailedTag(i) !in tail
    ensures Without(ws + tail, i) == Without(ws, i) + tail
    decreases |tail|
  {
    if tail == [] {
      assert ws + tail == ws;
    } else {
      var n := |tail| - 1;
      var front, last := tail[..n], tail[n];
      assert tail == front + [last];
      WithoutClosing(ws, front, i);
      Bytes.Assoc(ws, front, [last]);
      WithoutSnoc(ws + front, last, i);
      Bytes.Assoc(Without(ws, i), front, [last]);
    }
  }

  // ------------------------------------------------------------------
  // Ignition
  // ------------------------------------------------------------------

  /** Field `i` is the last of the first `n` that reports an ignition state. */
  ghost predicate LastIgnition(c: Codecs, tags: seq<Tag>, fields: seq<string>, n: nat, i: nat)
    requires n <= |tags| && n <= |fields|
  {
    && i < n && IgnitionOf(c, tags[i], fields[i]).Some?
    && forall j :: i < j < n ==> IgnitionOf(c, tags[j], fields[j]).None?
  }

  /** The final ignition is the last ignition-bearing valid field's in format order; without one it stays absent. */
  lemma {:induction false} IgnitionIsLast(c: Codecs, tags: seq<Tag>, fields: seq<string>, n: nat)
    requires n <= |tags| && n <= |fields|
    ensures var ignition := DecodeFields(c, tags, fields, n).payload.ignition;
            && (forall i: nat :: LastIgnition(c, tags, fields, n, i) ==> ignition == IgnitionOf(c, tags[i], fields[i]))
            && ((forall i :: 0 <= i < n ==> IgnitionOf(c, tags[i], fields[i]).None?) ==> ignition.None?)
  {
    if n > 0 {
      IgnitionIsLast(c, tags, fields, n - 1);
      IgnitionStep(c, tags[n - 1], fields[n - 1], DecodeFields(c, tags, fields, n - 1).payload);
      forall i: nat | LastIgnition(c, tags, fields, n, i)
        ensures DecodeFields(c, tags, fields, n).payload.ignition == IgnitionOf(c, tags[i], fields[i])
      {
        if i < n - 1 {
          assert LastIgnition(c, tags, fields, n - 1, i);
        }
      }
    }
  }

  lemma IgnitionStep(c: Codecs, tag: Tag, value: string, p: Payload)
    ensures value != "" && !Throws(c, tag, value) ==>
              Applied(c, tag, value, p).ignition ==
              if IgnitionOf(c, tag, value).Some? then IgnitionOf(c, tag, value) else p.ignition
  {}
}
