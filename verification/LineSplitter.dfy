/** The StarLink line splitter, against splitting the whole stream on newlines. */
module LineSplitter {
  import opened Bytes

  const LINE_TERMINATOR: Byte := 0x0A
  const CARRIAGE_RETURN: Byte := 0x0D

  // ------------------------------------------------------------------
  // The specification: split on newline
  // ------------------------------------------------------------------

  /** All newline-terminated segments of a stream, without their newline, and the unterminated tail. */
  datatype Segments = Segments(raw: seq<Buffer>, tail: Buffer)

  function Split(b: Buffer): (r: Segments)
    ensures LINE_TERMINATOR !in r.tail && |r.tail| <= |b|
    decreases |b|
  {
    var n := IndexOf(b, LINE_TERMINATOR, 0);
    if n == -1 then Segments([], b)
    else
      var r := Split(b[n + 1..]);
      r.(raw := [b[..n]] + r.raw)
  }

  /** A segment without one carriage return at its end. */
  function Strip(segment: Buffer): Buffer {
    var n := |segment|;
    if n > 0 && segment[n - 1] == CARRIAGE_RETURN then segment[..n - 1] else segment
  }

  function StripAll(raw: seq<Buffer>): (r: seq<Buffer>)
    ensures |r| == |raw| && forall i :: 0 <= i < |raw| ==> r[i] == Strip(raw[i])
  {
    seq(|raw|, i requires 0 <= i < |raw| => Strip(raw[i]))
  }

  function NonEmpty(lines: seq<Buffer>): seq<Buffer> {
    if lines == [] then []
    else (if lines[0] != [] then [lines[0]] else []) + NonEmpty(lines[1..])
  }

  /** The lines of a stream: its newline-terminated segments, stripped, blank ones dropped. */
  function Lines(b: Buffer): seq<Buffer> {
    NonEmpty(StripAll(Split(b).raw))
  }

  lemma {:induction false} NonEmptyAppend(a: seq<Buffer>, b: seq<Buffer>)
    ensures NonEmpty(a + b) == NonEmpty(a) + NonEmpty(b)
  {
    if a == [] {
      assert a + b == b;
    } else {
      NonEmptyAppend(a[1..], b);
      Uncons(a, b);
      Assoc(if a[0] != [] then [a[0]] else [], NonEmpty(a[1..]), NonEmpty(b));
    }
  }

  lemma StripAllAppend(a: seq<Buffer>, b: seq<Buffer>)
    ensures StripAll(a + b) == StripAll(a) + StripAll(b)
  {}

  /** Splitting goes on behind the tail. */
  lemma {:induction false} SplitAppend(a: Buffer, b: Buffer)
    ensures Split(a + b) == Segments(Split(a).raw + Split(Split(a).tail + b).raw, Split(Split(a).tail + b).tail)
    decreases |a|
  {
    var n := IndexOf(a, LINE_TERMINATOR, 0);
    if n == -1 {
      assert [] + Split(a + b).raw == Split(a + b).raw;
    } else {
      FirstNewline(a, b, n);
      SplitAppend(a[n + 1..], b);
      Assoc([a[..n]], Split(a[n + 1..]).raw, Split(Split(a).tail + b).raw);
    }
  }

  lemma FirstNewline(a: Buffer, b: Buffer, n: nat)
    requires n == IndexOf(a, LINE_TERMINATOR, 0)
    ensures IndexOf(a + b, LINE_TERMINATOR, 0) == n
    ensures (a + b)[..n] == a[..n] && (a + b)[n + 1..] == a[n + 1..] + b
  {
    assert (a + b)[n] == LINE_TERMINATOR;
    var m := IndexOf(a + b, LINE_TERMINATOR, 0);
    assert m <= n && a[m] == (a + b)[m];
  }

  // ------------------------------------------------------------------
  // Pushes
  // ------------------------------------------------------------------

  /** `raw` keeps also the segments that strip to a blank line. */
  datatype Pushed = Pushed(raw: seq<Buffer>, pending: Buffer, overflowed: bool)

  function PushStep(pending: Buffer, chunk: Buffer, max: nat): Pushed {
    var s := Split(pending + chunk);
    if |s.tail| > max then Pushed(s.raw, [], true) else Pushed(s.raw, s.tail, false)
  }

  datatype Run = Run(raw: seq<Buffer>, pending: Buffer, overflows: nat)

  function Feed(pending: Buffer, chunks: seq<Buffer>, max: nat): Run
    decreases chunks
  {
    if chunks == [] then Run([], pending, 0)
    else
      var p := PushStep(pending, chunks[0], max);
      var r := Feed(p.pending, chunks[1..], max);
      Run(p.raw + r.raw, r.pending, r.overflows + if p.overflowed then 1 else 0)
  }

  /** What all pushes of a run return. */
  function Emitted(r: Run): seq<Buffer> {
    NonEmpty(StripAll(r.raw))
  }

  // ------------------------------------------------------------------
  // Refinement
  // ------------------------------------------------------------------

  ghost predicate IsSuffix(a: Buffer, b: Buffer) {
    |a| <= |b| && a == b[|b| - |a|..]
  }

  ghost predicate SuffixWise(xs: seq<Buffer>, ys: seq<Buffer>) {
    |xs| == |ys| && forall i :: 0 <= i < |xs| ==> IsSuffix(xs[i], ys[i])
  }

  lemma SuffixAppend(a: Buffer, b: Buffer, x: Buffer)
    requires IsSuffix(a, b)
    ensures IsSuffix(a + x, b + x)
  {
    assert b == b[..|b| - |a|] + a;
    Assoc(b[..|b| - |a|], a, x);
  }

  lemma SuffixWiseAppend(xs: seq<Buffer>, ys: seq<Buffer>, more: seq<Buffer>, others: seq<Buffer>)
    requires SuffixWise(xs, ys) && SuffixWise(more, others)
    ensures SuffixWise(xs + more, ys + others)
  {}

  lemma SuffixRefl(xs: seq<Buffer>)
    ensures SuffixWise(xs, xs)
  {
    assert forall i :: 0 <= i < |xs| ==> xs[i] == xs[i][0..];
  }

  /** Losing the front of a first line changes nothing but that line. */
  lemma SuffixSplit(a: Buffer, b: Buffer, c: Buffer)
    requires IsSuffix(a, b) && LINE_TERMINATOR !in b
    ensures SuffixWise(Split(a + c).raw, Split(b + c).raw)
    ensures IsSuffix(Split(a + c).tail, Split(b + c).tail)
  {
    var n := IndexOf(c, LINE_TERMINATOR, 0);
    if n == -1 {
      NoNewline(a, c);
      NoNewline(b, c);
      SuffixAppend(a, b, c);
    } else {
      LateNewline(a, c, n);
      LateNewline(b, c, n);
      SuffixAppend(a, b, c[..n]);
      var more := Split(c[n + 1..]);
      SuffixRefl(more.raw);
      SuffixRefl([more.tail]);
      SuffixWiseAppend([a + c[..n]], [b + c[..n]], more.raw, more.raw);
      assert IsSuffix([more.tail][0], [more.tail][0]);
    }
  }

  lemma NoNewline(a: Buffer, c: Buffer)
    requires LINE_TERMINATOR !in a && IndexOf(c, LINE_TERMINATOR, 0) == -1
    ensures Split(a + c) == Segments([], a + c)
  {
    var m := IndexOf(a + c, LINE_TERMINATOR, 0);
    assert forall i :: 0 <= i < |a + c| ==> (a + c)[i] == if i < |a| then a[i] else c[i - |a|];
    assert m == -1;
  }

  lemma LateNewline(a: Buffer, c: Buffer, n: nat)
    requires LINE_TERMINATOR !in a && IndexOf(c, LINE_TERMINATOR, 0) == n
    ensures Split(a + c) == Segments([a + c[..n]] + Split(c[n + 1..]).raw, Split(c[n + 1..]).tail)
  {
    NewlineBehind(a, c, n);
    SlicesBehind(a, c, n);
    FirstSegment(a + c, |a| + n, a + c[..n], c[n + 1..]);
  }

  lemma SlicesBehind(a: Buffer, c: Buffer, n: nat)
    requires n < |c|
    ensures (a + c)[..|a| + n] == a + c[..n] && (a + c)[|a| + n + 1..] == c[n + 1..]
  {}

  lemma FirstSegment(b: Buffer, n: nat, first: Buffer, rest: Buffer)
    requires IndexOf(b, LINE_TERMINATOR, 0) == n && first == b[..n] && rest == b[n + 1..]
    ensures Split(b) == Segments([first] + Split(rest).raw, Split(rest).tail)
  {}

  lemma NewlineBehind(a: Buffer, c: Buffer, n: nat)
    requires LINE_TERMINATOR !in a && IndexOf(c, LINE_TERMINATOR, 0) == n
    ensures IndexOf(a + c, LINE_TERMINATOR, 0) == |a| + n
  {
    var b := a + c;
    assert b[|a| + n] == c[n];
    assert forall i :: 0 <= i < |a| + n ==> b[i] == if i < |a| then a[i] else c[i - |a|];
  }

  /**
   * The run against the whole stream, from a state in which overflows have left only a
   * suffix `pending` of the true unterminated tail `tail`. Every segment handed out is a
   * suffix of the corresponding true one; without overflow they are equal.
   */
  lemma {:induction false} RunSplits(pending: Buffer, tail: Buffer, chunks: seq<Buffer>, max: nat)
    requires IsSuffix(pending, tail) && LINE_TERMINATOR !in tail
    ensures var r, s := Feed(pending, chunks, max), Split(tail + Flatten(chunks));
            && SuffixWise(r.raw, s.raw)
            && IsSuffix(r.pending, s.tail)
            && (pending == tail && r.overflows == 0 ==> r.raw == s.raw && r.pending == s.tail)
    decreases chunks
  {
    if chunks == [] {
      assert tail + [] == tail;
      NoNewline(tail, []);
    } else {
      var c, rest := chunks[0], Flatten(chunks[1..]);
      var p := PushStep(pending, c, max);
      SuffixSplit(pending, tail, c);
      Assoc(tail, c, rest);
      SplitAppend(tail + c, rest);
      RunSplits(p.pending, Split(tail + c).tail, chunks[1..], max);
      SuffixWiseAppend(p.raw, Split(tail + c).raw, Feed(p.pending, chunks[1..], max).raw,
                       Split(Split(tail + c).tail + rest).raw);
    }
  }

  lemma SuffixStrip(a: Buffer, b: Buffer)
    requires IsSuffix(a, b)
    ensures IsSuffix(Strip(a), Strip(b))
  {}

  /** While no push overflows, the pushes return exactly the lines of the stream, for every chunking. */
  lemma RefinesSplit(chunks: seq<Buffer>, max: nat)
    requires Feed([], chunks, max).overflows == 0
    ensures Emitted(Feed([], chunks, max)) == Lines(Flatten(chunks))
    ensures Feed([], chunks, max).pending == Split(Flatten(chunks)).tail
  {
    RunSplits([], [], chunks, max);
    assert [] + Flatten(chunks) == Flatten(chunks);
  }

  /** Whatever overflows, each segment handed out is a suffix of the corresponding true stripped line. */
  lemma SuffixesSurvive(chunks: seq<Buffer>, max: nat)
    ensures var got, truth := StripAll(Feed([], chunks, max).raw), StripAll(Split(Flatten(chunks)).raw);
            SuffixWise(got, truth) && Emitted(Feed([], chunks, max)) == NonEmpty(got)
  {
    RunSplits([], [], chunks, max);
    assert [] + Flatten(chunks) == Flatten(chunks);
    var r, s := Feed([], chunks, max), Split(Flatten(chunks));
    forall i | 0 <= i < |r.raw|
      ensures IsSuffix(StripAll(r.raw)[i], StripAll(s.raw)[i])
    {
      SuffixStrip(r.raw[i], s.raw[i]);
    }
  }

  // ------------------------------------------------------------------
  // When a chunking can overflow
  // ------------------------------------------------------------------

  /** Every segment, terminator excluded, and the tail fit the buffer. */
  ghost predicate AllFit(s: Segments, max: nat) {
    forall i: nat :: i <= |s.raw| ==> |SegmentAt(s, i)| <= max
  }

  lemma {:induction false} TailFits(a: Buffer, b: Buffer, max: nat)
    requires AllFit(Split(a + b), max)
    ensures |Split(a).tail| <= max
    ensures AllFit(Split(Split(a).tail + b), max)
  {
    SplitAppend(a, b);
    RestFits(Split(a).raw, Split(Split(a).tail + b), max);
    TailStartsSegment(Split(a).tail, b);
  }

  /** The segments behind some others fit if all do. */
  lemma RestFits(raw: seq<Buffer>, rest: Segments, max: nat)
    requires AllFit(Segments(raw + rest.raw, rest.tail), max)
    ensures AllFit(rest, max) && |SegmentAt(rest, 0)| <= max
  {
    forall i: nat | i <= |rest.raw|
      ensures |SegmentAt(rest, i)| <= max
    {
      assert SegmentAt(rest, i) == SegmentAt(Segments(raw + rest.raw, rest.tail), |raw| + i);
    }
  }

  lemma TailStartsSegment(t: Buffer, b: Buffer)
    requires LINE_TERMINATOR !in t
    ensures |t| <= |SegmentAt(Split(t + b), 0)|
  {
    var n := IndexOf(b, LINE_TERMINATOR, 0);
    if n == -1 {
      NoNewline(t, b);
    } else {
      LateNewline(t, b, n);
    }
  }

  lemma {:induction false} FitNeverOverflows(pending: Buffer, chunks: seq<Buffer>, max: nat)
    requires AllFit(Split(pending + Flatten(chunks)), max)
    ensures Feed(pending, chunks, max).overflows == 0
    decreases chunks
  {
    if chunks != [] {
      var c, rest := chunks[0], Flatten(chunks[1..]);
      Assoc(pending, c, rest);
      TailFits(pending + c, rest, max);
      FitNeverOverflows(Split(pending + c).tail, chunks[1..], max);
    }
  }

  /** Segment `i`, or the tail behind the last one. */
  function SegmentAt(s: Segments, i: nat): Buffer {
    if i < |s.raw| then s.raw[i] else s.tail
  }

  lemma TwoChunks(a: Buffer, b: Buffer)
    ensures Flatten([a, b]) == a + b
  {
    assert [a, b][1..] == [b] && [b][1..] == [];
    assert Flatten([b]) == b + Flatten([b][1..]);
  }

  /** Overflow, exactly: no chunking of a stream overflows if and only if every segment and the tail fit the buffer. */
  lemma OverflowExactly(stream: Buffer, max: nat)
    ensures (forall chunks: seq<Buffer> :: Flatten(chunks) == stream ==> Feed([], chunks, max).overflows == 0)
       <==> AllFit(Split(stream), max)
  {
    if AllFit(Split(stream), max) {
      forall chunks: seq<Buffer> | Flatten(chunks) == stream
        ensures Feed([], chunks, max).overflows == 0
      {
        assert [] + stream == stream;
        FitNeverOverflows([], chunks, max);
      }
    } else {
      var chunks := OverflowingChunks(stream, max);
    }
  }

  /** A stream with an oversized segment overflows when it is cut at every newline and behind that segment. */
  lemma {:induction false} OverflowingChunks(stream: Buffer, max: nat) returns (chunks: seq<Buffer>)
    requires !AllFit(Split(stream), max)
    ensures Flatten(chunks) == stream && Feed([], chunks, max).overflows > 0
    decreases |stream|
  {
    var n := IndexOf(stream, LINE_TERMINATOR, 0);
    var at := if n == -1 then |stream| else if n > max then n else n + 1;
    var first, rest := stream[..at], stream[at..];
    assert stream == first + rest;
    if n == -1 || n > max {
      chunks := [first] + [rest];
      assert [first] + [rest] == [first, rest];
      TwoChunks(first, rest);
      OversizeStart(first, [rest], max);
    } else {
      FirstLineFits(stream, n, max);
      var more := OverflowingChunks(rest, max);
      chunks := [first] + more;
      WholeLine(first, n, more, max);
    }
  }

  lemma OversizeStart(first: Buffer, more: seq<Buffer>, max: nat)
    requires LINE_TERMINATOR !in first && |first| > max
    ensures Feed([], [first] + more, max).overflows > 0
  {
    assert first + [] == first && [] + first == first;
    NoNewline(first, []);
    var p := PushStep([], first, max);
    assert p == Pushed([], [], true);
    FeedCons([], first, more, max);
  }

  lemma FeedCons(pending: Buffer, first: Buffer, more: seq<Buffer>, max: nat)
    ensures var p := PushStep(pending, first, max);
            Feed(pending, [first] + more, max).overflows ==
            Feed(p.pending, more, max).overflows + if p.overflowed then 1 else 0
  {
    assert ([first] + more)[1..] == more;
  }

  lemma WholeLine(line: Buffer, n: nat, more: seq<Buffer>, max: nat)
    requires |line| == n + 1 && line[n] == LINE_TERMINATOR && LINE_TERMINATOR !in line[..n]
    ensures Feed([], [line] + more, max).overflows == Feed([], more, max).overflows
    ensures Flatten([line] + more) == line + Flatten(more)
  {
    assert forall i :: 0 <= i < n ==> line[i] == line[..n][i];
    assert IndexOf(line, LINE_TERMINATOR, 0) == n;
    assert line[n + 1..] == [];
    assert [] + line == line;
    assert ([line] + more)[1..] == more;
    assert Split(line).tail == [];
    FeedCons([], line, more, max);
  }

  lemma OversizeBehind(line: Buffer, rest: Segments, max: nat)
    requires |line| <= max && !AllFit(rest.(raw := [line] + rest.raw), max)
    ensures !AllFit(rest, max)
  {
    var all := rest.(raw := [line] + rest.raw);
    var i: nat :| i <= |all.raw| && |SegmentAt(all, i)| > max;
    assert i > 0 && SegmentAt(all, i) == SegmentAt(rest, i - 1);
  }

  lemma FirstLineFits(b: Buffer, n: nat, max: nat)
    requires IndexOf(b, LINE_TERMINATOR, 0) == n <= max && !AllFit(Split(b), max)
    ensures !AllFit(Split(b[n + 1..]), max)
  {
    OversizeBehind(b[..n], Split(b[n + 1..]), max);
  }

  // ------------------------------------------------------------------
  // Lines on the wire
  // ------------------------------------------------------------------

  /** A text, a carriage return or none, a line feed. */
  function LineBytes(text: Buffer, carriageReturn: bool): Buffer {
    text + ((if carriageReturn then [0x0D] else []) + [0x0A])
  }

  /** A text that is not changed by what ends its line. */
  predicate IsText(text: Buffer, carriageReturn: bool) {
    (forall i :: 0 <= i < |text| ==> text[i] != 0x0A) && (carriageReturn || text == [] || text[|text| - 1] != 0x0D)
  }

  function AllLineBytes(texts: seq<Buffer>, crs: seq<bool>): Buffer
    requires |texts| == |crs|
  {
    if texts == [] then [] else LineBytes(texts[0], crs[0]) + AllLineBytes(texts[1..], crs[1..])
  }

  function WithoutEmpty(texts: seq<Buffer>): seq<Buffer> {
    if texts == [] then [] else (if texts[0] == [] then [] else [texts[0]]) + WithoutEmpty(texts[1..])
  }

  /**
   * Texts ended by line feeds, each with or without a carriage return in front of it, are exactly the
   * lines of their stream, the empty ones left out, with nothing behind them.
   */
  lemma {:induction false} LinesOnWire(texts: seq<Buffer>, crs: seq<bool>)
    requires |texts| == |crs| && forall i :: 0 <= i < |texts| ==> IsText(texts[i], crs[i])
    ensures Lines(AllLineBytes(texts, crs)) == WithoutEmpty(texts)
    ensures Split(AllLineBytes(texts, crs)).tail == []
    decreases |texts|
  {
    if texts != [] {
      var text, more := texts[0], AllLineBytes(texts[1..], crs[1..]);
      LinesOnWire(texts[1..], crs[1..]);
      LineOnWire(text, crs[0], more);
    }
  }

  lemma LineOnWire(text: Buffer, carriageReturn: bool, more: Buffer)
    requires IsText(text, carriageReturn)
    ensures Lines(LineBytes(text, carriageReturn) + more) == (if text == [] then [] else [text]) + Lines(more)
    ensures Split(LineBytes(text, carriageReturn) + more).tail == Split(more).tail
  {
    var b := LineBytes(text, carriageReturn) + more;
    var n := |text| + if carriageReturn then 1 else 0;
    LineEnd(text, carriageReturn, more);
    FirstLine(b, n);
  }

  lemma LineEnd(text: Buffer, carriageReturn: bool, more: Buffer)
    requires IsText(text, carriageReturn)
    ensures var b, n := LineBytes(text, carriageReturn) + more, |text| + if carriageReturn then 1 else 0;
            IndexOf(b, LINE_TERMINATOR, 0) == n && Strip(b[..n]) == text && b[n + 1..] == more
  {
    var b := LineBytes(text, carriageReturn) + more;
    var n := |text| + if carriageReturn then 1 else 0;
    assert b[n] == 0x0A;
    assert forall i :: 0 <= i < |text| ==> b[i] == text[i];
    assert carriageReturn ==> b[|text|] == 0x0D;
    var m := IndexOf(b, LINE_TERMINATOR, 0);
    assert m == n;
    assert b[..n] == if carriageReturn then text + [0x0D] else text;
  }

  // ------------------------------------------------------------------
  // The splitter object
  // ------------------------------------------------------------------

  class StarlinkLineSplitter {
    var buffer: Buffer
    const maxBufferBytes: nat

    ghost predicate Valid()
      reads this
    {
      LINE_TERMINATOR !in buffer && |buffer| <= maxBufferBytes
    }

    constructor (maxBufferBytes: nat := 8 * 1024)
      ensures Valid() && buffer == [] && this.maxBufferBytes == maxBufferBytes
    {
      buffer := [];
      this.maxBufferBytes := maxBufferBytes;
    }

    method Push(chunk: Buffer) returns (lines: seq<Buffer>, overflowed: bool)
      requires Valid()
      modifies this
      ensures Valid()
      ensures var p := PushStep(old(buffer), chunk, maxBufferBytes);
              lines == NonEmpty(StripAll(p.raw)) && buffer == p.pending && overflowed == p.overflowed
    {
      buffer := if |buffer| == 0 then chunk else buffer + chunk;
      assert buffer == old(buffer) + chunk;
      lines := ExtractLines();
      overflowed := false;
      if |buffer| > maxBufferBytes {
        overflowed := true;
        buffer := [];
      }
    }

    /** The loop of `push`. */
    method ExtractLines() returns (lines: seq<Buffer>)
      modifies this
      ensures lines == Lines(old(buffer)) && buffer == Split(old(buffer)).tail
    {
      lines := [];
      var newlineIndex := IndexOf(buffer, LINE_TERMINATOR, 0);
      while newlineIndex != -1
        invariant newlineIndex == IndexOf(buffer, LINE_TERMINATOR, 0)
        invariant Continues(lines, buffer, old(buffer))
        decreases |buffer|
      {
        var lineEnd := newlineIndex;
        if lineEnd > 0 && buffer[lineEnd - 1] == CARRIAGE_RETURN {
          lineEnd := lineEnd - 1;
        }
        var line := buffer[..lineEnd];
        assert line == Strip(buffer[..newlineIndex]);
        NextLine(lines, buffer, newlineIndex, line, old(buffer));
        buffer := buffer[newlineIndex + 1..];
        if |line| > 0 {
          lines := lines + [line];
        }
        newlineIndex := IndexOf(buffer, LINE_TERMINATOR, 0);
      }
      LastLine(lines, buffer, old(buffer));
    }
  }

  /** Where the loop of `push` stands: `lines` were taken from the front of `all`, `buffer` is left. */
  ghost predicate Continues(lines: seq<Buffer>, buffer: Buffer, all: Buffer) {
    lines + Lines(buffer) == Lines(all) && Split(buffer).tail == Split(all).tail
  }

  lemma NextLine(lines: seq<Buffer>, buffer: Buffer, n: nat, line: Buffer, all: Buffer)
    requires Continues(lines, buffer, all)
    requires IndexOf(buffer, LINE_TERMINATOR, 0) == n && line == Strip(buffer[..n])
    ensures Continues(if |line| > 0 then lines + [line] else lines, buffer[n + 1..], all)
  {
    FirstLine(buffer, n);
    var own := if line != [] then [line] else [];
    Assoc(lines, own, Lines(buffer[n + 1..]));
    assert lines + own == if |line| > 0 then lines + [line] else lines;
  }

  lemma LastLine(lines: seq<Buffer>, buffer: Buffer, all: Buffer)
    requires Continues(lines, buffer, all) && IndexOf(buffer, LINE_TERMINATOR, 0) == -1
    ensures lines == Lines(all) && buffer == Split(all).tail
  {
    assert lines + [] == lines;
  }

  lemma FirstLine(b: Buffer, n: nat)
    requires IndexOf(b, LINE_TERMINATOR, 0) == n
    ensures var line := Strip(b[..n]); Lines(b) == (if line != [] then [line] else []) + Lines(b[n + 1..])
    ensures Split(b).tail == Split(b[n + 1..]).tail
  {
    var r := Split(b[n + 1..]).raw;
    StripAllAppend([b[..n]], r);
    assert StripAll([b[..n]]) == [Strip(b[..n])];
    assert ([Strip(b[..n])] + StripAll(r))[1..] == StripAll(r);
  }
}
