/** The grammar of a StarLink "SLU" line, and the parser for it. */
module StarlinkLine {
  import opened Bytes
  import opened Wrappers

  // ------------------------------------------------------------------
  // Characters
  // ------------------------------------------------------------------

  predicate IsDigit(c: char) {
    '0' <= c <= '9'
  }

  predicate IsHex(c: char) {
    IsDigit(c) || 'A' <= c <= 'F' || 'a' <= c <= 'f'
  }

  predicate IsLineTerminator(c: char) {
    c == '\n' || c == '\r' || c as int == 0x2028 || c as int == 0x2029
  }

  /** What `.` matches: one UTF-16 code unit that ends no line. */
  predicate IsDot(c: char) {
    !IsLineTerminator(c) && (c as int) < 0x10000
  }

  /** What `trim` removes. */
  predicate IsWhitespace(c: char) {
    var n := c as int;
    || 9 <= n <= 13 || n == 0x20 || n == 0xA0 || n == 0x1680 || 0x2000 <= n <= 0x200A
    || n == 0x2028 || n == 0x2029 || n == 0x202F || n == 0x205F || n == 0x3000 || n == 0xFEFF
  }

  predicate All(s: string, p: char -> bool) {
    forall i :: 0 <= i < |s| ==> p(s[i])
  }

  // ------------------------------------------------------------------
  // The grammar
  // ------------------------------------------------------------------

  datatype Parts = Parts(head: Option<char>, deviceId: string, messageType: string, messageIndex: string,
                         data: string, checksumHex: string)

  predicate IsDeviceId(id: string) {
    (|id| == 6 && All(id, IsHex)) || (|id| == 15 && All(id, IsDigit))
  }

  predicate WellFormed(p: Parts) {
    && (p.head.Some? ==> IsDot(p.head.value))
    && IsDeviceId(p.deviceId)
    && p.messageType != "" && All(p.messageType, IsDigit)
    && p.messageIndex != "" && All(p.messageIndex, IsDigit)
    && p.data != "" && All(p.data, c => !IsLineTerminator(c))
    && |p.checksumHex| == 2 && All(p.checksumHex, IsHex)
  }

  function HeadText(head: Option<char>): string {
    if head.Some? then [head.value] else ""
  }

  /** `buildStarlinkLine`. */
  function Print(p: Parts): string {
    var zone := p.data + ("*" + p.checksumHex);
    HeadText(p.head) + ("SLU" + (p.deviceId + ("," + (p.messageType + ("," + (p.messageIndex + ("," + zone)))))))
  }

  /** `line` is in the language of the frame pattern, with these captures. */
  ghost predicate Matches(line: string, p: Parts) {
    WellFormed(p) && line == Print(p)
  }

  // ------------------------------------------------------------------
  // A deterministic reader of the grammar
  // ------------------------------------------------------------------

  /** The text up to the first comma, and what follows it. */
  function Field(s: string): (r: Option<(string, string)>)
    ensures r.Some? ==> s == r.value.0 + ("," + r.value.1)
  {
    var c := IndexOf(s, ',', 0);
    if c == -1 then None else Some((s[..c], s[c + 1..]))
  }

  lemma FieldOf(x: string, rest: string)
    requires forall i :: 0 <= i < |x| ==> x[i] != ','
    ensures Field(x + ("," + rest)) == Some((x, rest))
  {
    var s := x + ("," + rest);
    assert s[|x|] == ',';
    assert forall i :: 0 <= i < |x| ==> s[i] == x[i];
    assert s[|x| + 1..] == rest;
  }

  /** Head and the text behind "SLU". */
  function Prefix(line: string): (r: Option<(Option<char>, string)>)
    ensures r.Some? ==> line == HeadText(r.value.0) + ("SLU" + r.value.1)
  {
    if |line| >= 3 && line[..3] == "SLU" then Some((None, line[3..]))
    else if |line| >= 4 && line[1..4] == "SLU" then
      assert line == [line[0]] + (line[1..4] + line[4..]);
      Some((Some(line[0]), line[4..]))
    else None
  }

  lemma PrefixOf(head: Option<char>, rest: string)
    ensures Prefix(HeadText(head) + ("SLU" + rest)) == Some((head, rest))
  {
    var line := HeadText(head) + ("SLU" + rest);
    if head.Some? {
      assert line[1..4] == "SLU" && line[4..] == rest;
      assert line[1] == 'S';
      assert line[..3][1] == 'S' && "SLU"[1] == 'L';
    } else {
      assert line[..3] == "SLU" && line[3..] == rest;
    }
  }

  /** Data and checksum: the last `*` but two characters. */
  function DataZone(s: string): (r: Option<(string, string)>)
    ensures r.Some? ==> s == r.value.0 + ("*" + r.value.1) && |r.value.1| == 2
  {
    var n := |s|;
    if n >= 3 && s[n - 3] == '*' then Some((s[..n - 3], s[n - 2..])) else None
  }

  /** The match of the frame pattern: every piece is forced. */
  function Exec(line: string): Option<Parts> {
    var prefix := Prefix(line);
    if prefix.None? then None else
    var id := Field(prefix.value.1);
    if id.None? then None else
    var messageType := Field(id.value.1);
    if messageType.None? then None else
    var index := Field(messageType.value.1);
    if index.None? then None else
    var zone := DataZone(index.value.1);
    if zone.None? then None else
    var p := Parts(prefix.value.0, id.value.0, messageType.value.0, index.value.0, zone.value.0, zone.value.1);
    if WellFormed(p) then Some(p) else None
  }

  /** The grammar is unambiguous: a line has at most one reading, and `Exec` finds it. */
  lemma ExecIsTheMatch(line: string, p: Parts)
    ensures Exec(line) == Some(p) <==> Matches(line, p)
  {
    if Matches(line, p) {
      var zone := p.data + ("*" + p.checksumHex);
      var index := p.messageIndex + ("," + zone);
      var kind := p.messageType + ("," + index);
      PrefixOf(p.head, p.deviceId + ("," + kind));
      FieldOf(p.deviceId, kind);
      FieldOf(p.messageType, index);
      FieldOf(p.messageIndex, zone);
      assert DataZone(zone) == Some((p.data, p.checksumHex)) by {
        assert zone[|p.data|] == '*' && zone[..|p.data|] == p.data && zone[|p.data| + 1..] == p.checksumHex;
      }
    }
  }

  lemma Unambiguous(line: string, p: Parts, q: Parts)
    requires Matches(line, p) && Matches(line, q)
    ensures p == q
  {
    ExecIsTheMatch(line, p);
    ExecIsTheMatch(line, q);
  }

  // ------------------------------------------------------------------
  // parseFrame
  // ------------------------------------------------------------------

  function TrimStart(s: string): (r: string)
    ensures r == "" || !IsWhitespace(r[0])
  {
    if s != "" && IsWhitespace(s[0]) then TrimStart(s[1..]) else s
  }

  function TrimEnd(s: string): (r: string)
    ensures r <= s && (r == "" || !IsWhitespace(r[|r| - 1]))
  {
    if s != "" && IsWhitespace(s[|s| - 1]) then TrimEnd(s[..|s| - 1]) else s
  }

  function Trim(s: string): string {
    TrimEnd(TrimStart(s))
  }

  datatype LineError = EmptyLine | NoMatch

  function ParseLine(line: string): Result<Parts, LineError> {
    var trimmed := Trim(line);
    if trimmed == "" then Failure(EmptyLine)
    else
      var m := Exec(trimmed);
      if m.None? then Failure(NoMatch) else Success(m.value)
  }

  lemma TrimPadding(before: string, core: string, after: string)
    requires All(before, IsWhitespace) && All(after, IsWhitespace)
    requires core != "" && !IsWhitespace(core[0]) && !IsWhitespace(core[|core| - 1])
    ensures Trim(before + core + after) == core
  {
    TrimStartPadding(before, core + after);
    assert before + (core + after) == before + core + after;
    TrimEndPadding(core, after);
  }

  lemma {:induction false} TrimStartPadding(before: string, core: string)
    requires All(before, IsWhitespace) && core != "" && !IsWhitespace(core[0])
    ensures TrimStart(before + core) == core
  {
    if before == "" {
      assert before + core == core;
    } else {
      Uncons(before, core);
      TrimStartPadding(before[1..], core);
    }
  }

  lemma {:induction false} TrimEndPadding(core: string, after: string)
    requires All(after, IsWhitespace) && core != "" && !IsWhitespace(core[|core| - 1])
    ensures TrimEnd(core + after) == core
    decreases |after|
  {
    if after == "" {
      assert core + after == core;
    } else {
      var n := |after| - 1;
      assert (core + after)[|core + after| - 1] == after[n];
      assert (core + after)[..|core + after| - 1] == core + after[..n];
      TrimEndPadding(core, after[..n]);
    }
  }

  /**
   * The printed line, with any white space around it, gives back all six parts. A head that
   * is itself white space is the one part that cannot survive: it reads as absent.
   */
  lemma LineRoundTrip(before: string, p: Parts, after: string)
    requires WellFormed(p) && All(before, IsWhitespace) && All(after, IsWhitespace)
    ensures ParseLine(before + Print(p) + after) ==
            Success(if p.head.Some? && IsWhitespace(p.head.value) then p.(head := None) else p)
  {
    if p.head.Some? && IsWhitespace(p.head.value) {
      var q, lead := p.(head := None), before + [p.head.value];
      assert before + Print(p) == lead + Print(q) by {
        PrintHead(p);
        Assoc(before, [p.head.value], Print(q));
      }
      TrimmedRoundTrip(lead, q, after);
    } else {
      TrimmedRoundTrip(before, p, after);
    }
  }

  lemma PrintHead(p: Parts)
    requires p.head.Some?
    ensures Print(p) == [p.head.value] + Print(p.(head := None))
  {
    assert Print(p.(head := None)) == "" + Print(p.(head := None));
  }

  lemma TrimmedRoundTrip(before: string, p: Parts, after: string)
    requires WellFormed(p) && All(before, IsWhitespace) && All(after, IsWhitespace)
    requires p.head.Some? ==> !IsWhitespace(p.head.value)
    ensures ParseLine(before + Print(p) + after) == Success(p)
  {
    PrintEnds(p);
    TrimPadding(before, Print(p), after);
    ExecIsTheMatch(Print(p), p);
  }

  lemma PrintEnds(q: Parts)
    requires WellFormed(q) && (q.head.Some? ==> !IsWhitespace(q.head.value))
    ensures Print(q) != "" && !IsWhitespace(Print(q)[0]) && !IsWhitespace(Print(q)[|Print(q)| - 1])
  {
    var s := Print(q);
    assert s[|s| - 1] == q.checksumHex[1];
    assert s[0] == if q.head.Some? then q.head.value else 'S';
  }

  // ------------------------------------------------------------------
  // The numbers of the header
  // ------------------------------------------------------------------

  /** `parseInt(s, 10)` on a string of digits. */
  function DecimalValue(s: string): nat
    requires All(s, IsDigit)
  {
    if s == "" then 0 else 10 * DecimalValue(s[..|s| - 1]) + (s[|s| - 1] as nat - '0' as nat)
  }

  /** A number as it is printed. */
  function Decimal(n: nat): (s: string)
    ensures s != "" && All(s, IsDigit)
  {
    if n < 10 then ["0123456789"[n]] else Decimal(n / 10) + ["0123456789"[n % 10]]
  }

  lemma {:induction false} DecimalRoundTrip(n: nat)
    ensures DecimalValue(Decimal(n)) == n
  {
    if n >= 10 {
      DecimalRoundTrip(n / 10);
      var s := Decimal(n);
      assert s[..|s| - 1] == Decimal(n / 10);
    } else {
      var s := Decimal(n);
      assert s[..|s| - 1] == "";
    }
  }

  // ------------------------------------------------------------------
  // The language of lines, character by character
  // ------------------------------------------------------------------

  predicate OneOf(s: string, allowed: string) {
    forall i :: 0 <= i < |s| ==> s[i] in allowed
  }

  /** Not a line feed, a carriage return, or one of the two Unicode line separators. */
  predicate EndsNoLine(c: char) {
    c as int != 10 && c as int != 13 && c as int != 8232 && c as int != 8233
  }

  /** The pieces of a line: an optional head, six hex digits or fifteen digits, two numbers, data, two hex digits. */
  ghost predicate SpelledParts(p: Parts) {
    && (p.head.Some? ==> EndsNoLine(p.head.value) && p.head.value as int < 65536)
    && ((|p.deviceId| == 6 && OneOf(p.deviceId, "0123456789ABCDEFabcdef")) ||
        (|p.deviceId| == 15 && OneOf(p.deviceId, "0123456789")))
    && p.messageType != "" && OneOf(p.messageType, "0123456789")
    && p.messageIndex != "" && OneOf(p.messageIndex, "0123456789")
    && p.data != "" && (forall i :: 0 <= i < |p.data| ==> EndsNoLine(p.data[i]))
    && |p.checksumHex| == 2 && OneOf(p.checksumHex, "0123456789ABCDEFabcdef")
  }

  /** Head, "SLU", device id, type, index and data between commas, a star, checksum. */
  ghost predicate Spelled(line: string, p: Parts) {
    && SpelledParts(p)
    && line ==
       (if p.head.Some? then [p.head.value] else []) + ['S', 'L', 'U'] + p.deviceId + [','] + p.messageType + [','] +
       p.messageIndex + [','] + p.data + ['*'] + p.checksumHex
  }

  lemma DigitsAre(s: string)
    ensures All(s, IsDigit) <==> OneOf(s, "0123456789")
    ensures All(s, IsHex) <==> OneOf(s, "0123456789ABCDEFabcdef")
  {
    forall i | 0 <= i < |s|
      ensures IsDigit(s[i]) <==> s[i] in "0123456789"
      ensures IsHex(s[i]) <==> s[i] in "0123456789ABCDEFabcdef"
    {
      DigitIs(s[i]);
      HexIs(s[i]);
    }
  }

  lemma DigitIs(c: char)
    ensures IsDigit(c) <==> c in "0123456789"
  {
    if IsDigit(c) {
      assert c == "0123456789"[c as int - 48];
    }
  }

  lemma HexIs(c: char)
    ensures IsHex(c) <==> c in "0123456789ABCDEFabcdef"
  {
    if IsDigit(c) {
      assert c == "0123456789ABCDEFabcdef"[c as int - 48];
    } else if 'A' <= c <= 'F' {
      assert c == "0123456789ABCDEFabcdef"[c as int - 65 + 10];
    } else if 'a' <= c <= 'f' {
      assert c == "0123456789ABCDEFabcdef"[c as int - 97 + 16];
    }
  }

  /** The frame pattern accepts exactly these lines, with these captures. */
  lemma PatternIs(line: string, p: Parts)
    ensures Exec(line) == Some(p) <==> Spelled(line, p)
  {
    ExecIsTheMatch(line, p);
    PartsAre(p);
    PrintIs(p);
  }

  lemma PartsAre(p: Parts)
    ensures WellFormed(p) <==> SpelledParts(p)
  {
    DigitsAre(p.deviceId);
    DigitsAre(p.messageType);
    DigitsAre(p.messageIndex);
    DigitsAre(p.checksumHex);
    forall i | 0 <= i < |p.data|
      ensures IsLineTerminator(p.data[i]) <==> !EndsNoLine(p.data[i])
    {
    }
  }

  lemma PrintIs(p: Parts)
    ensures Print(p) ==
            (if p.head.Some? then [p.head.value] else []) + ['S', 'L', 'U'] + p.deviceId + [','] + p.messageType +
            [','] + p.messageIndex + [','] + p.data + ['*'] + p.checksumHex
  {}

  /** White space, by code point. */
  predicate IsBlank(c: char) {
    c as int in {9, 10, 11, 12, 13, 32, 160, 5760, 8192, 8193, 8194, 8195, 8196, 8197, 8198, 8199, 8200, 8201, 8202,
                 8232, 8233, 8239, 8287, 12288, 65279}
  }

  lemma BlankIs(c: char)
    ensures IsWhitespace(c) <==> IsBlank(c)
  {}

  predicate AllBlank(s: string) {
    forall i :: 0 <= i < |s| ==> IsBlank(s[i])
  }

  lemma {:induction false} TrimStartCuts(s: string) returns (before: string)
    ensures s == before + TrimStart(s) && AllBlank(before)
  {
    if s != "" && IsWhitespace(s[0]) {
      BlankIs(s[0]);
      var more := TrimStartCuts(s[1..]);
      before := [s[0]] + more;
    } else {
      before := "";
    }
  }

  lemma {:induction false} TrimEndCuts(s: string) returns (after: string)
    ensures s == TrimEnd(s) + after && AllBlank(after)
    decreases |s|
  {
    if s != "" && IsWhitespace(s[|s| - 1]) {
      BlankIs(s[|s| - 1]);
      var more := TrimEndCuts(s[..|s| - 1]);
      after := more + [s[|s| - 1]];
    } else {
      after := "";
    }
  }

  /**
   * A line is parsed to these parts exactly if its core is spelled so and everything around the core is
   * white space, which the core itself neither begins nor ends with.
   */
  lemma ParsesExactly(line: string, p: Parts)
    ensures ParseLine(line) == Success(p) <==>
            exists before, core, after ::
              && line == before + core + after && AllBlank(before) && AllBlank(after)
              && core != "" && !IsBlank(core[0]) && !IsBlank(core[|core| - 1])
              && Spelled(core, p)
  {
    if ParseLine(line) == Success(p) {
      var before := TrimStartCuts(line);
      var after := TrimEndCuts(TrimStart(line));
      var core := Trim(line);
      PatternIs(core, p);
      Assoc(before, core, after);
      TrimEnds(line);
      assert line == before + core + after;
    }
    forall before, core, after | && line == before + core + after && AllBlank(before) && AllBlank(after)
                                 && core != "" && !IsBlank(core[0]) && !IsBlank(core[|core| - 1])
                                 && Spelled(core, p)
      ensures ParseLine(line) == Success(p)
    {
      BlanksTrimmed(before, core, after);
      PatternIs(core, p);
    }
  }

  lemma TrimEnds(line: string)
    requires Trim(line) != ""
    ensures !IsBlank(Trim(line)[0]) && !IsBlank(Trim(line)[|Trim(line)| - 1])
  {
    BlankIs(Trim(line)[0]);
    BlankIs(Trim(line)[|Trim(line)| - 1]);
    assert Trim(line)[0] == TrimStart(line)[0];
  }

  lemma BlanksTrimmed(before: string, core: string, after: string)
    requires AllBlank(before) && AllBlank(after) && core != "" && !IsBlank(core[0]) && !IsBlank(core[|core| - 1])
    ensures Trim(before + core + after) == core
  {
    forall i | 0 <= i < |before|
      ensures IsWhitespace(before[i])
    {
      BlankIs(before[i]);
    }
    forall i | 0 <= i < |after|
      ensures IsWhitespace(after[i])
    {
      BlankIs(after[i]);
    }
    BlankIs(core[0]);
    BlankIs(core[|core| - 1]);
    TrimPadding(before, core, after);
  }

  /** A line is empty exactly if it is white space; any other line that does not parse does not match. */
  lemma EmptyExactly(line: string)
    ensures ParseLine(line) == Failure(EmptyLine) <==> AllBlank(line)
  {
    var before := TrimStartCuts(line);
    var after := TrimEndCuts(TrimStart(line));
    if Trim(line) == "" {
      assert line == before + after;
    } else {
      TrimEnds(line);
      var core := Trim(line);
      assert line == before + (core + after);
      assert line[|before|] == core[0];
    }
  }

  /** The decimal reading, digit by digit. */
  lemma DecimalIs(s: string, digit: char)
    requires OneOf(s, "0123456789") && digit in "0123456789"
    ensures All(s, IsDigit) && All(s + [digit], IsDigit)
    ensures DecimalValue("") == 0 && DecimalValue(s + [digit]) == 10 * DecimalValue(s) + (digit as int - 48)
  {
    DigitsAre(s);
    DigitIs(digit);
    assert (s + [digit])[..|s|] == s;
  }
}
