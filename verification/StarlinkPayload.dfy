/** What a StarLink event report decodes to, tag string by tag string. */
module StarlinkPayload {
  import opened Wrappers
  import opened StarlinkReport
  import opened StarlinkFrame

  // ------------------------------------------------------------------
  // The last value under a tag
  // ------------------------------------------------------------------

  /** What a value under a tag string gives for one field of the payload, if it gives anything. */
  type Gives<T> = (string, string) -> Option<T>

  /** Non-empty values under this tag string give what the parser makes of them. */
  function Under<T>(text: string, parse: string -> Option<T>): Gives<T> {
    (t, v) => if t == text && v != "" then parse(v) else None
  }

  /** Position `i` is the last of the first `n` that gives something. */
  ghost predicate LastAt<T>(gives: Gives<T>, tags: seq<string>, fields: seq<string>, n: nat, i: nat)
    requires n <= |tags| && n <= |fields|
  {
    i < n && gives(tags[i], fields[i]).Some? && forall j :: i < j < n ==> gives(tags[j], fields[j]).None?
  }

  /** `result` is what the last position that gives something gives, and absent without one. */
  ghost predicate IsLast<T>(gives: Gives<T>, tags: seq<string>, fields: seq<string>, n: nat, result: Option<T>)
    requires n <= |tags| && n <= |fields|
  {
    && (forall i: nat :: LastAt(gives, tags, fields, n, i) ==> result == gives(tags[i], fields[i]))
    && ((forall i :: 0 <= i < n ==> gives(tags[i], fields[i]).None?) ==> result.None?)
  }

  /** One more value either gives the field anew or leaves it. */
  ghost predicate Tracked<T(!new)>(c: Codecs, field: Payload -> Option<T>, gives: Gives<T>) {
    field(EMPTY).None? && forall text, value, p :: Step(c, field, gives, text, value, p)
  }

  ghost predicate Step<T>(c: Codecs, field: Payload -> Option<T>, gives: Gives<T>, text: string, value: string,
                          p: Payload) {
    field(After(c, text, value, p)) == if gives(text, value).Some? then gives(text, value) else field(p)
  }

  /** The payload after one value. */
  function After(c: Codecs, text: string, value: string, p: Payload): Payload {
    AfterTag(c, TagOf(text), value, p)
  }

  function AfterTag(c: Codecs, tag: Tag, value: string, p: Payload): Payload {
    if value == "" || Throws(c, tag, value) then p else Applied(c, tag, value, p)
  }

  lemma {:induction false} TrackedIsLast<T(!new)>(c: Codecs, field: Payload -> Option<T>, gives: Gives<T>,
                                                  tags: seq<string>, fields: seq<string>, n: nat)
    requires n <= |tags| && n <= |fields| && Tracked(c, field, gives)
    ensures IsLast(gives, tags, fields, n, field(DecodeFields(c, TagsOf(tags), fields, n).payload))
  {
    if n > 0 {
      var k := n - 1;
      TrackedIsLast(c, field, gives, tags, fields, k);
      var before, after := TrackedStep(c, field, gives, tags, fields, k);
      LastStep(gives, tags, fields, k, before, after);
    }
  }

  lemma TrackedStep<T(!new)>(c: Codecs, field: Payload -> Option<T>, gives: Gives<T>, tags: seq<string>,
                             fields: seq<string>, k: nat)
    returns (before: Option<T>, after: Option<T>)
    requires k < |tags| && k < |fields| && Tracked(c, field, gives)
    ensures before == field(DecodeFields(c, TagsOf(tags), fields, k).payload)
    ensures after == field(DecodeFields(c, TagsOf(tags), fields, k + 1).payload)
    ensures after == if gives(tags[k], fields[k]).Some? then gives(tags[k], fields[k]) else before
  {
    var p := DecodeFields(c, TagsOf(tags), fields, k).payload;
    OneMoreField(c, tags, fields, k);
    assert Step(c, field, gives, tags[k], fields[k], p);
    before, after := field(p), field(After(c, tags[k], fields[k], p));
  }

  lemma OneMoreField(c: Codecs, tags: seq<string>, fields: seq<string>, k: nat)
    requires k < |tags| && k < |fields|
    ensures DecodeFields(c, TagsOf(tags), fields, k + 1).payload ==
            After(c, tags[k], fields[k], DecodeFields(c, TagsOf(tags), fields, k).payload)
    ensures DecodeFields(c, TagsOf(tags), fields, k + 1).warnings ==
            DecodeFields(c, TagsOf(tags), fields, k).warnings +
            if fields[k] != "" && Throws(c, TagOf(tags[k]), fields[k]) then [FailedTag(k)] else []
  {
    var ws := DecodeFields(c, TagsOf(tags), fields, k).warnings;
    assert ws + [] == ws;
  }

  lemma LastStep<T>(gives: Gives<T>, tags: seq<string>, fields: seq<string>, k: nat, before: Option<T>,
                    after: Option<T>)
    requires k < |tags| && k < |fields| && IsLast(gives, tags, fields, k, before)
    requires after == if gives(tags[k], fields[k]).Some? then gives(tags[k], fields[k]) else before
    ensures IsLast(gives, tags, fields, k + 1, after)
  {
    forall i: nat | LastAt(gives, tags, fields, k + 1, i)
      ensures after == gives(tags[i], fields[i])
    {
      if i < k {
        assert LastAt(gives, tags, fields, k, i);
      }
    }
  }

  /** A known tag has exactly one string. */
  lemma TagIs(text: string, tag: Tag)
    requires !tag.OtherTag?
    ensures TagOf(text) == tag <==> text == TextOf(tag)
  {
    TagKeepsText(text);
    if tag.IN? || tag.OUT? {
      KnownChannelTag(tag);
    } else {
      KnownPlainTag(tag);
    }
  }

  lemma KnownChannelTag(tag: Tag)
    requires tag.IN? || tag.OUT?
    ensures TagOf(TextOf(tag)) == tag
  {
    match tag
    case IN(n) => assert ChannelTag(TextOf(IN(n))) == IN(n);
    case OUT(n) => assert ChannelTag(TextOf(OUT(n))) == OUT(n);
  }

  lemma KnownPlainTag(tag: Tag)
    requires !tag.OtherTag? && !tag.IN? && !tag.OUT?
    ensures TagOf(TextOf(tag)) == tag
  {
    NoChannel(tag);
    assert PlainTag(TextOf(tag)) == tag;
  }

  lemma NoChannel(tag: Tag)
    requires !tag.OtherTag? && !tag.IN? && !tag.OUT?
    ensures ChannelTag(TextOf(tag)).OtherTag?
  {}

  // ------------------------------------------------------------------
  // Field by field
  // ------------------------------------------------------------------

  /** Kilometres to whole metres, the nearest ones. */
  function Metres(km: Option<real>): (m: Option<int>)
    ensures m.Some? <==> km.Some?
    ensures m.Some? ==> km.value * 1000.0 - 0.5 < m.value as real <= km.value * 1000.0 + 0.5
  {
    if km.Some? then Some((km.value * 1000.0 + 0.5).Floor) else None
  }

  /** A value under this tag is stored in this field, and nothing else is. */
  ghost predicate Stored<T(!new)>(c: Codecs, field: Payload -> Option<T>, tag: Tag, parse: string -> Option<T>) {
    field(EMPTY).None? && forall t, value, p :: Stores(c, field, tag, parse, t, value, p)
  }

  ghost predicate Stores<T>(c: Codecs, field: Payload -> Option<T>, tag: Tag, parse: string -> Option<T>, t: Tag,
                            value: string, p: Payload) {
    field(AfterTag(c, t, value, p)) == if t == tag && value != "" && parse(value).Some? then parse(value) else field(p)
  }

  lemma StoredIsLast<T(!new)>(c: Codecs, field: Payload -> Option<T>, tag: Tag, text: string,
                              parse: string -> Option<T>, tags: seq<string>, fields: seq<string>, n: nat)
    requires n <= |tags| && n <= |fields| && Stored(c, field, tag, parse)
    requires !tag.OtherTag? && text == TextOf(tag)
    ensures IsLast(Under(text, parse), tags, fields, n, field(DecodeFields(c, TagsOf(tags), fields, n).payload))
  {
    var gives := Under(text, parse);
    forall t, value, p
      ensures Step(c, field, gives, t, value, p)
    {
      TagIs(t, tag);
      assert Stores(c, field, tag, parse, TagOf(t), value, p);
    }
    TrackedIsLast(c, field, gives, tags, fields, n);
  }

  lemma DeviceTimeIsLast(c: Codecs, tags: seq<string>, fields: seq<string>, n: nat)
    requires n <= |tags| && n <= |fields|
    ensures IsLast(Under("#EDT#", v => Some(c.dateTime(v))), tags, fields, n,
                   DecodeFields(c, TagsOf(tags), fields, n).payload.deviceTime)
  {
    StoredIsLast(c, (p: Payload) => p.deviceTime, EDT, "#EDT#", v => Some(c.dateTime(v)), tags, fields, n);
  }

  lemma FixTimeIsLast(c: Codecs, tags: seq<string>, fields: seq<string>, n: nat)
    requires n <= |tags| && n <= |fields|
    ensures IsLast(Under("#PDT#", v => Some(c.dateTime(v))), tags, fields, n,
                   DecodeFields(c, TagsOf(tags), fields, n).payload.fixTime)
  {
    StoredIsLast(c, (p: Payload) => p.fixTime, PDT, "#PDT#", v => Some(c.dateTime(v)), tags, fields, n);
  }

  lemma EventIdIsLast(c: Codecs, tags: seq<string>, fields: seq<string>, n: nat)
    requires n <= |tags| && n <= |fields|
    ensures IsLast(Under("#EID#", c.strictInt), tags, fields, n,
                   DecodeFields(c, TagsOf(tags), fields, n).payload.eventId)
  {
    StoredIsLast(c, (p: Payload) => p.eventId, EID, "#EID#", c.strictInt, tags, fields, n);
  }

  lemma LatitudeIsLast(c: Codecs, tags: seq<string>, fields: seq<string>, n: nat)
    requires n <= |tags| && n <= |fields|
    ensures IsLast(Under("#LAT#", c.coordinate), tags, fields, n,
                   DecodeFields(c, TagsOf(tags), fields, n).payload.latitude)
  {
    StoredIsLast(c, (p: Payload) => p.latitude, LAT, "#LAT#", c.coordinate, tags, fields, n);
  }

  lemma LongitudeIsLast(c: Codecs, tags: seq<string>, fields: seq<string>, n: nat)
    requires n <= |tags| && n <= |fields|
    ensures IsLast(Under("#LONG#", c.coordinate), tags, fields, n,
                   DecodeFields(c, TagsOf(tags), fields, n).payload.longitude)
  {
    StoredIsLast(c, (p: Payload) => p.longitude, LONG, "#LONG#", c.coordinate, tags, fields, n);
  }

  lemma SpeedKnotsIsLast(c: Codecs, tags: seq<string>, fields: seq<string>, n: nat)
    requires n <= |tags| && n <= |fields|
    ensures IsLast(Under("#SPD#", c.strictFloat), tags, fields, n,
                   DecodeFields(c, TagsOf(tags), fields, n).payload.speedKnots)
  {
    StoredIsLast(c, (p: Payload) => p.speedKnots, SPD, "#SPD#", c.strictFloat, tags, fields, n);
  }

  lemma CourseIsLast(c: Codecs, tags: seq<string>, fields: seq<string>, n: nat)
    requires n <= |tags| && n <= |fields|
    ensures IsLast(Under("#HEAD#", c.strictInt), tags, fields, n,
                   DecodeFields(c, TagsOf(tags), fields, n).payload.course)
  {
    StoredIsLast(c, (p: Payload) => p.course, HEAD, "#HEAD#", c.strictInt, tags, fields, n);
  }

  lemma OdometerMIsLast(c: Codecs, tags: seq<string>, fields: seq<string>, n: nat)
    requires n <= |tags| && n <= |fields|
    ensures IsLast(Under("#ODO#", v => Metres(c.strictFloat(v))), tags, fields, n,
                   DecodeFields(c, TagsOf(tags), fields, n).payload.odometerM)
  {
    StoredIsLast(c, (p: Payload) => p.odometerM, ODO, "#ODO#", v => Metres(c.strictFloat(v)), tags, fields, n);
  }

  lemma LacIsLast(c: Codecs, tags: seq<string>, fields: seq<string>, n: nat)
    requires n <= |tags| && n <= |fields|
    ensures IsLast(Under("#LAC#", c.strictInt), tags, fields, n,
                   DecodeFields(c, TagsOf(tags), fields, n).payload.lac)
  {
    StoredIsLast(c, (p: Payload) => p.lac, LAC, "#LAC#", c.strictInt, tags, fields, n);
  }

  lemma CidIsLast(c: Codecs, tags: seq<string>, fields: seq<string>, n: nat)
    requires n <= |tags| && n <= |fields|
    ensures IsLast(Under("#CID#", c.strictInt), tags, fields, n,
                   DecodeFields(c, TagsOf(tags), fields, n).payload.cid)
  {
    StoredIsLast(c, (p: Payload) => p.cid, CID, "#CID#", c.strictInt, tags, fields, n);
  }

  lemma MainPowerVoltageIsLast(c: Codecs, tags: seq<string>, fields: seq<string>, n: nat)
    requires n <= |tags| && n <= |fields|
    ensures IsLast(Under("#VIN#", c.strictFloat), tags, fields, n,
                   DecodeFields(c, TagsOf(tags), fields, n).payload.mainPowerVoltage)
  {
    StoredIsLast(c, (p: Payload) => p.mainPowerVoltage, VIN, "#VIN#", c.strictFloat, tags, fields, n);
  }

  lemma BatteryVoltageIsLast(c: Codecs, tags: seq<string>, fields: seq<string>, n: nat)
    requires n <= |tags| && n <= |fields|
    ensures IsLast(Under("#VBAT#", c.strictFloat), tags, fields, n,
                   DecodeFields(c, TagsOf(tags), fields, n).payload.batteryVoltage)
  {
    StoredIsLast(c, (p: Payload) => p.batteryVoltage, VBAT, "#VBAT#", c.strictFloat, tags, fields, n);
  }

  lemma DestinationIsLast(c: Codecs, tags: seq<string>, fields: seq<string>, n: nat)
    requires n <= |tags| && n <= |fields|
    ensures IsLast(Under("#DEST#", v => Some(v)), tags, fields, n,
                   DecodeFields(c, TagsOf(tags), fields, n).payload.destination)
  {
    StoredIsLast(c, (p: Payload) => p.destination, DEST, "#DEST#", v => Some(v), tags, fields, n);
  }

  /** Event 24 switches the ignition on, 25 off; under #IGN# and #ENG# a positive number means on. */
  function IgnitionGiven(c: Codecs): Gives<bool> {
    (t, v) =>
      if v == "" || c.strictInt(v).None? then None
      else if t == "#EID#" then
        if c.strictInt(v).value == 24 then Some(true) else if c.strictInt(v).value == 25 then Some(false) else None
      else if t == "#IGN#" || t == "#ENG#" then Some(c.strictInt(v).value > 0)
      else None
  }

  lemma IgnitionByTag(c: Codecs, tag: Tag, text: string, value: string, p: Payload)
    requires tag == EID <==> text == "#EID#"
    requires tag == IGN <==> text == "#IGN#"
    requires tag == ENG <==> text == "#ENG#"
    ensures var given := IgnitionGiven(c)(text, value);
            AfterTag(c, tag, value, p).ignition == if given.Some? then given else p.ignition
  {}

  lemma IgnitionTags(text: string) returns (tag: Tag)
    ensures tag == TagOf(text)
    ensures (tag == EID <==> text == "#EID#") && (tag == IGN <==> text == "#IGN#") && (tag == ENG <==> text == "#ENG#")
  {
    TagIs(text, EID);
    TagIs(text, IGN);
    TagIs(text, ENG);
    tag := TagOf(text);
  }

  lemma IgnitionOfLast(c: Codecs, tags: seq<string>, fields: seq<string>, n: nat)
    requires n <= |tags| && n <= |fields|
    ensures IsLast(IgnitionGiven(c), tags, fields, n,
                   DecodeFields(c, TagsOf(tags), fields, n).payload.ignition)
  {
    var field, gives := (p: Payload) => p.ignition, IgnitionGiven(c);
    forall text, value, p
      ensures Step(c, field, gives, text, value, p)
    {
      var tag := IgnitionTags(text);
      IgnitionByTag(c, tag, text, value, p);
    }
    TrackedIsLast(c, field, gives, tags, fields, n);
  }

  function InputOf(p: Payload, n: Channel): Option<int> {
    if n in p.digitalInputs then Some(p.digitalInputs[n]) else None
  }

  function OutputOf(p: Payload, n: Channel): Option<int> {
    if n in p.digitalOutputs then Some(p.digitalOutputs[n]) else None
  }

  lemma InputIsLast(c: Codecs, tags: seq<string>, fields: seq<string>, n: nat, k: Channel, text: string)
    requires n <= |tags| && n <= |fields| && text == TextOf(IN(k))
    ensures IsLast(Under(text, c.strictInt), tags, fields, n,
                   InputOf(DecodeFields(c, TagsOf(tags), fields, n).payload, k))
  {
    StoredIsLast(c, (p: Payload) => InputOf(p, k), IN(k), text, c.strictInt, tags, fields, n);
  }

  lemma OutputIsLast(c: Codecs, tags: seq<string>, fields: seq<string>, n: nat, k: Channel, text: string)
    requires n <= |tags| && n <= |fields| && text == TextOf(OUT(k))
    ensures IsLast(Under(text, c.strictInt), tags, fields, n,
                   OutputOf(DecodeFields(c, TagsOf(tags), fields, n).payload, k))
  {
    StoredIsLast(c, (p: Payload) => OutputOf(p, k), OUT(k), text, c.strictInt, tags, fields, n);
  }

  // ------------------------------------------------------------------
  // The whole payload
  // ------------------------------------------------------------------

  ghost predicate PositionIsLast(c: Codecs, tags: seq<string>, fields: seq<string>, n: nat, p: Payload)
    requires n <= |tags| && n <= |fields|
  {
    && IsLast(Under("#EDT#", v => Some(c.dateTime(v))), tags, fields, n, p.deviceTime)
    && IsLast(Under("#PDT#", v => Some(c.dateTime(v))), tags, fields, n, p.fixTime)
    && IsLast(Under("#EID#", c.strictInt), tags, fields, n, p.eventId)
    && IsLast(Under("#LAT#", c.coordinate), tags, fields, n, p.latitude)
    && IsLast(Under("#LONG#", c.coordinate), tags, fields, n, p.longitude)
    && IsLast(Under("#SPD#", c.strictFloat), tags, fields, n, p.speedKnots)
    && IsLast(Under("#HEAD#", c.strictInt), tags, fields, n, p.course)
  }

  ghost predicate StatusIsLast(c: Codecs, tags: seq<string>, fields: seq<string>, n: nat, p: Payload)
    requires n <= |tags| && n <= |fields|
  {
    && IsLast(Under("#ODO#", v => Metres(c.strictFloat(v))), tags, fields, n, p.odometerM)
    && IsLast(Under("#LAC#", c.strictInt), tags, fields, n, p.lac)
    && IsLast(Under("#CID#", c.strictInt), tags, fields, n, p.cid)
    && IsLast(Under("#VIN#", c.strictFloat), tags, fields, n, p.mainPowerVoltage)
    && IsLast(Under("#VBAT#", c.strictFloat), tags, fields, n, p.batteryVoltage)
    && IsLast(Under("#DEST#", v => Some(v)), tags, fields, n, p.destination)
    && IsLast(IgnitionGiven(c), tags, fields, n, p.ignition)
  }

  ghost predicate ChannelsAreLast(c: Codecs, tags: seq<string>, fields: seq<string>, n: nat, p: Payload)
    requires n <= |tags| && n <= |fields|
  {
    && IsLast(Under("#IN1#", c.strictInt), tags, fields, n, InputOf(p, 1))
    && IsLast(Under("#IN2#", c.strictInt), tags, fields, n, InputOf(p, 2))
    && IsLast(Under("#IN3#", c.strictInt), tags, fields, n, InputOf(p, 3))
    && IsLast(Under("#IN4#", c.strictInt), tags, fields, n, InputOf(p, 4))
    && IsLast(Under("#OUT1#", c.strictInt), tags, fields, n, OutputOf(p, 1))
    && IsLast(Under("#OUT2#", c.strictInt), tags, fields, n, OutputOf(p, 2))
    && IsLast(Under("#OUT3#", c.strictInt), tags, fields, n, OutputOf(p, 3))
    && IsLast(Under("#OUT4#", c.strictInt), tags, fields, n, OutputOf(p, 4))
  }

  lemma PositionFields(c: Codecs, tags: seq<string>, fields: seq<string>, n: nat)
    requires n <= |tags| && n <= |fields|
    ensures PositionIsLast(c, tags, fields, n, DecodeFields(c, TagsOf(tags), fields, n).payload)
  {
    DeviceTimeIsLast(c, tags, fields, n);
    FixTimeIsLast(c, tags, fields, n);
    EventIdIsLast(c, tags, fields, n);
    LatitudeIsLast(c, tags, fields, n);
    LongitudeIsLast(c, tags, fields, n);
    SpeedKnotsIsLast(c, tags, fields, n);
    CourseIsLast(c, tags, fields, n);
  }

  lemma StatusFields(c: Codecs, tags: seq<string>, fields: seq<string>, n: nat)
    requires n <= |tags| && n <= |fields|
    ensures StatusIsLast(c, tags, fields, n, DecodeFields(c, TagsOf(tags), fields, n).payload)
  {
    OdometerMIsLast(c, tags, fields, n);
    LacIsLast(c, tags, fields, n);
    CidIsLast(c, tags, fields, n);
    MainPowerVoltageIsLast(c, tags, fields, n);
    BatteryVoltageIsLast(c, tags, fields, n);
    DestinationIsLast(c, tags, fields, n);
    IgnitionOfLast(c, tags, fields, n);
  }

  lemma ChannelFields(c: Codecs, tags: seq<string>, fields: seq<string>, n: nat)
    requires n <= |tags| && n <= |fields|
    ensures ChannelsAreLast(c, tags, fields, n, DecodeFields(c, TagsOf(tags), fields, n).payload)
  {
    InputIsLast(c, tags, fields, n, 1, "#IN1#");
    InputIsLast(c, tags, fields, n, 2, "#IN2#");
    InputIsLast(c, tags, fields, n, 3, "#IN3#");
    InputIsLast(c, tags, fields, n, 4, "#IN4#");
    OutputIsLast(c, tags, fields, n, 1, "#OUT1#");
    OutputIsLast(c, tags, fields, n, 2, "#OUT2#");
    OutputIsLast(c, tags, fields, n, 3, "#OUT3#");
    OutputIsLast(c, tags, fields, n, 4, "#OUT4#");
  }

  /**
   * For any format and any fields, every field of the payload is what the last non-empty value under its
   * tag string means to its parser, values the parser throws on left out, and absent without one.
   */
  lemma EveryFieldIsLast(c: Codecs, tags: seq<string>, fields: seq<string>)
    ensures var n, p := Count(tags, fields), DecodeReport(c, TagsOf(tags), fields).payload;
            && PositionIsLast(c, tags, fields, n, p) && StatusIsLast(c, tags, fields, n, p)
            && ChannelsAreLast(c, tags, fields, n, p)
  {
    var n := Count(tags, fields);
    PositionFields(c, tags, fields, n);
    StatusFields(c, tags, fields, n);
    ChannelFields(c, tags, fields, n);
  }

  /** As many fields as there are both values and tags. */
  function Count(tags: seq<string>, fields: seq<string>): (n: nat)
    ensures n <= |tags| && n <= |fields| && (n == |tags| || n == |fields|)
  {
    if |fields| < |tags| then |fields| else |tags|
  }

  // ------------------------------------------------------------------
  // What is left undecoded, and the warnings
  // ------------------------------------------------------------------

  predicate IsKnownText(text: string) {
    IsPlainText(text) || IsChannelText(text)
  }

  predicate IsPlainText(text: string) {
    text in {"#EDT#", "#EID#", "#PDT#", "#LAT#", "#LONG#", "#SPD#", "#HEAD#", "#ODO#", "#LAC#", "#CID#", "#VIN#",
             "#VBAT#", "#DEST#", "#IGN#", "#ENG#"}
  }

  predicate IsChannelText(text: string) {
    text in {"#IN1#", "#IN2#", "#IN3#", "#IN4#", "#OUT1#", "#OUT2#", "#OUT3#", "#OUT4#"}
  }

  /** The tag strings with a value that are not known, in order. */
  function Unknown(known: string -> bool, tags: seq<string>, fields: seq<string>, n: nat): seq<string>
    requires n <= |tags| && n <= |fields|
  {
    if n == 0 then []
    else
      Unknown(known, tags, fields, n - 1) +
      if fields[n - 1] != "" && !known(tags[n - 1]) then [tags[n - 1]] else []
  }

  function AsTags(texts: seq<string>): (tags: seq<Tag>)
    ensures |tags| == |texts| && forall i :: 0 <= i < |texts| ==> tags[i] == OtherTag(texts[i])
  {
    seq(|texts|, i requires 0 <= i < |texts| => OtherTag(texts[i]))
  }

  /** The parser of this tag string throws on the value. */
  predicate ThrowsUnder(c: Codecs, text: string, value: string) {
    || (text in {"#LAT#", "#LONG#"} && c.coordinate(value).None?)
    || (text in {"#SPD#", "#ODO#", "#VIN#", "#VBAT#"} && c.strictFloat(value).None?)
    || ((text in {"#EID#", "#HEAD#", "#LAC#", "#CID#", "#IGN#", "#ENG#"} || IsChannelText(text)) &&
        c.strictInt(value).None?)
  }

  /** One warning for each non-empty value that its parser throws on, in order. */
  function Failed(throws: (string, string) -> bool, tags: seq<string>, fields: seq<string>, n: nat): seq<Warning>
    requires n <= |tags| && n <= |fields|
  {
    if n == 0 then []
    else
      Failed(throws, tags, fields, n - 1) +
      if fields[n - 1] != "" && throws(tags[n - 1], fields[n - 1]) then [FailedTag(n - 1)] else []
  }

  lemma PlainTexts(text: string)
    ensures PlainTag(text).OtherTag? <==> !IsPlainText(text)
  {}

  lemma ChannelTexts(text: string)
    ensures ChannelTag(text).OtherTag? <==> !IsChannelText(text)
    ensures IsChannelText(text) ==> ChannelTag(text).IN? || ChannelTag(text).OUT?
  {}

  lemma OtherTexts(text: string)
    ensures TagOf(text).OtherTag? <==> !IsKnownText(text)
    ensures TagOf(text).OtherTag? ==> TagOf(text) == OtherTag(text)
  {
    TagKeepsText(text);
    PlainTexts(text);
    ChannelTexts(text);
  }

  lemma ThrowsIs(c: Codecs, text: string, value: string)
    ensures Throws(c, TagOf(text), value) <==> ThrowsUnder(c, text, value)
  {
    TagKeepsText(text);
    ChannelTexts(text);
    ThrowingTexts(TagOf(text), text);
  }

  /** The tags whose values are parsed, by their strings. */
  lemma ThrowingTexts(tag: Tag, text: string)
    requires tag == TagOf(text) && TextOf(tag) == text
    ensures tag.LAT? || tag.LONG? <==> text in {"#LAT#", "#LONG#"}
    ensures tag.SPD? || tag.ODO? || tag.VIN? || tag.VBAT? <==> text in {"#SPD#", "#ODO#", "#VIN#", "#VBAT#"}
    ensures tag.EID? || tag.HEAD? || tag.LAC? || tag.CID? || tag.IGN? || tag.ENG? <==>
            text in {"#EID#", "#HEAD#", "#LAC#", "#CID#", "#IGN#", "#ENG#"}
    ensures tag.IN? || tag.OUT? <==> IsChannelText(text)
  {
    TagIs(text, LAT);
    TagIs(text, LONG);
    TagIs(text, SPD);
    TagIs(text, ODO);
    TagIs(text, VIN);
    TagIs(text, VBAT);
    IntegerTexts(tag, text);
    ChannelTexts(text);
  }

  lemma IntegerTexts(tag: Tag, text: string)
    requires tag == TagOf(text) && TextOf(tag) == text
    ensures tag.EID? || tag.HEAD? || tag.LAC? || tag.CID? || tag.IGN? || tag.ENG? <==>
            text in {"#EID#", "#HEAD#", "#LAC#", "#CID#", "#IGN#", "#ENG#"}
  {
    TagIs(text, EID);
    TagIs(text, HEAD);
    TagIs(text, LAC);
    TagIs(text, CID);
    TagIs(text, IGN);
    TagIs(text, ENG);
  }

  /** The strings of these tags, those that are not known included. */
  ghost predicate KnowsTags(known: string -> bool, texts: seq<string>, tags: seq<Tag>) {
    |tags| == |texts| && forall k :: 0 <= k < |tags| ==> KnowsTag(known, texts[k], tags[k])
  }

  ghost predicate KnowsTag(known: string -> bool, text: string, tag: Tag) {
    (known(text) <==> !tag.OtherTag?) && (tag.OtherTag? ==> tag == OtherTag(text))
  }

  ghost predicate KnowsThrows(c: Codecs, throws: (string, string) -> bool, texts: seq<string>, tags: seq<Tag>) {
    |tags| == |texts| && forall k, value :: 0 <= k < |tags| ==> SameThrow(c, throws, texts[k], tags[k], value)
  }

  ghost predicate SameThrow(c: Codecs, throws: (string, string) -> bool, text: string, tag: Tag, value: string) {
    throws(text, value) <==> Throws(c, tag, value)
  }

  lemma {:induction false} TagsLeftBehind(c: Codecs, known: string -> bool, texts: seq<string>, tags: seq<Tag>,
                                          fields: seq<string>, n: nat)
    requires KnowsTags(known, texts, tags) && n <= |tags| && n <= |fields|
    ensures DecodeFields(c, tags, fields, n).payload.unsupportedTags == AsTags(Unknown(known, texts, fields, n))
  {
    if n > 0 {
      var k := n - 1;
      TagsLeftBehind(c, known, texts, tags, fields, k);
      assert KnowsTag(known, texts[k], tags[k]);
      ValueLeavesBehind(c, known, texts[k], tags[k], fields[k], DecodeFields(c, tags, fields, k).payload,
                        Unknown(known, texts, fields, k));
    }
  }

  lemma ValueLeavesBehind(c: Codecs, known: string -> bool, text: string, tag: Tag, value: string, p: Payload,
                          unknown: seq<string>)
    requires p.unsupportedTags == AsTags(unknown) && KnowsTag(known, text, tag)
    ensures AfterTag(c, tag, value, p).unsupportedTags ==
            AsTags(unknown + if value != "" && !known(text) then [text] else [])
  {
    assert unknown + [] == unknown && p.unsupportedTags + [] == p.unsupportedTags;
    assert AsTags(unknown + [text]) == AsTags(unknown) + [OtherTag(text)];
  }

  lemma {:induction false} WarningsLeftBehind(c: Codecs, throws: (string, string) -> bool, texts: seq<string>,
                                              tags: seq<Tag>, fields: seq<string>, n: nat)
    requires KnowsThrows(c, throws, texts, tags) && n <= |tags| && n <= |fields|
    ensures DecodeFields(c, tags, fields, n).warnings == Failed(throws, texts, fields, n)
  {
    if n > 0 {
      var k := n - 1;
      WarningsLeftBehind(c, throws, texts, tags, fields, k);
      assert SameThrow(c, throws, texts[k], tags[k], fields[k]);
    }
  }

  /**
   * The unsupported tags are exactly the unknown strings with a value, in order; the warnings are one for
   * each value whose parser throws, in order, one if there are more values than tags, and one about the
   * unsupported tags if there are any.
   */
  lemma WarningsAre(c: Codecs, tags: seq<string>, fields: seq<string>)
    ensures var n, d := Count(tags, fields), DecodeReport(c, TagsOf(tags), fields);
            var unknown := AsTags(Unknown(IsKnownText, tags, fields, n));
            && d.payload.unsupportedTags == unknown
            && d.warnings ==
               Failed((text, value) => ThrowsUnder(c, text, value), tags, fields, n) +
               ((if |fields| > |tags| then [ExtraFields] else []) +
                (if unknown != [] then [UnsupportedTags(unknown)] else []))
  {
    var throws := (text, value) => ThrowsUnder(c, text, value);
    forall k, value | 0 <= k < |tags|
      ensures SameThrow(c, throws, tags[k], TagsOf(tags)[k], value)
    {
      ThrowsIs(c, tags[k], value);
    }
    forall k | 0 <= k < |tags|
      ensures KnowsTag(IsKnownText, tags[k], TagsOf(tags)[k])
    {
      OtherTexts(tags[k]);
    }
    TagsLeftBehind(c, IsKnownText, tags, TagsOf(tags), fields, Count(tags, fields));
    WarningsLeftBehind(c, throws, tags, TagsOf(tags), fields, Count(tags, fields));
  }
}
