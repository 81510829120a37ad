/**
 * The AVT110 frame splitter: a stateful buffer that is fed arbitrary TCP chunks
 * and cuts them into frames.
 */
module FrameSplitter {
  import opened Bytes

  const MAX_HEAD_TOKEN_SEARCH_BYTES := 8
  const LENGTH_FIELD_BYTES := 2
  /** IMEI + DeviceID + GTime + SN. */
  const MINIMUM_TRAILING_FIXED_BYTES := 8 + 1 + 7 + 2

  // ------------------------------------------------------------------
  // The length decision
  // ------------------------------------------------------------------

  /** `trusted` records whether the declared Length (fast path) or the scan (fallback) chose the boundary. */
  datatype Decision =
    | NeedMore
    | Desync
    | FrameLength(n: nat, trusted: bool)

  /** Index of the head token's colon inside the search window, or -1. */
  function HeadColon(b: Buffer): (c: int)
    ensures -1 <= c < |b| && c < MAX_HEAD_TOKEN_SEARCH_BYTES
    ensures c >= 0 ==> b[c] == COLON && forall i :: 0 <= i < c ==> b[i] != COLON
    ensures c == -1 ==> forall i :: 0 <= i < |b| && i < MAX_HEAD_TOKEN_SEARCH_BYTES ==> b[i] != COLON
  {
    var window := b[..if |b| < MAX_HEAD_TOKEN_SEARCH_BYTES then |b| else MAX_HEAD_TOKEN_SEARCH_BYTES];
    IndexOf(window, COLON, 0)
  }

  function LengthFieldEnd(b: Buffer): (e: nat)
    requires HeadColon(b) >= 0
    ensures e == HeadColon(b) + 3
  {
    HeadColon(b) + 1 + LENGTH_FIELD_BYTES
  }

  /** Where the frame ends if its Length field is believed. */
  function DeclaredEnd(b: Buffer): (e: nat)
    requires HeadColon(b) >= 0 && |b| >= LengthFieldEnd(b)
    ensures e > LengthFieldEnd(b)
  {
    LengthFieldEnd(b) + UIntAt(b, HeadColon(b) + 1, LENGTH_FIELD_BYTES) + 1
  }

  function Resolve(b: Buffer): (d: Decision)
    ensures d.FrameLength? ==> 0 < d.n <= |b| && b[d.n - 1] == HASH
  {
    if HeadColon(b) == -1 then
      if |b| < MAX_HEAD_TOKEN_SEARCH_BYTES then NeedMore else Desync
    else if |b| < LengthFieldEnd(b) then NeedMore
    else if |b| >= DeclaredEnd(b) && b[DeclaredEnd(b) - 1] == HASH then FrameLength(DeclaredEnd(b), true)
    else
      var minimumTerminatorIndex := LengthFieldEnd(b) + MINIMUM_TRAILING_FIXED_BYTES;
      if |b| <= minimumTerminatorIndex then NeedMore
      else
        var t := IndexOf(b, HASH, minimumTerminatorIndex);
        if t == -1 then NeedMore else FrameLength(t + 1, false)
  }

  lemma HeadColonStable(b: Buffer, x: Buffer)
    requires HeadColon(b) >= 0
    ensures HeadColon(b + x) == HeadColon(b)
    ensures |b| >= LengthFieldEnd(b) ==> DeclaredEnd(b + x) == DeclaredEnd(b)
  {
    var c := HeadColon(b);
    assert (b + x)[c] == COLON;
    var c' := HeadColon(b + x);
    assert 0 <= c' <= c;
    assert b[c'] == (b + x)[c'];
    if |b| >= LengthFieldEnd(b) {
      assert (b + x)[c + 1..c + 3] == b[c + 1..c + 3];
      UIntAtLocal(b + x, b, c + 1, 2);
    }
  }

  /** The boundary decided for `b` once `x` has arrived as well. */
  function Revised(b: Buffer, x: Buffer): Decision
    requires Resolve(b).FrameLength?
  {
    if |b| < DeclaredEnd(b) <= |b + x| && (b + x)[DeclaredEnd(b) - 1] == HASH
    then FrameLength(DeclaredEnd(b), true)
    else Resolve(b)
  }

  /**
   * Stability of the decision under more input. A desync stays one; a boundary
   * can change only if the fallback chose it before the declared end was
   * buffered, and then only into the declared boundary.
   */
  lemma DecisionStability(b: Buffer, x: Buffer)
    ensures Resolve(b).Desync? ==> Resolve(b + x).Desync?
    ensures Resolve(b).FrameLength? ==> Resolve(b + x) == Revised(b, x)
    ensures Resolve(b).FrameLength? && (Resolve(b).trusted || |b| >= DeclaredEnd(b)) ==> Resolve(b + x) == Resolve(b)
  {
    if HeadColon(b) == -1 {
      assert Resolve(b).Desync? ==> forall i :: 0 <= i < MAX_HEAD_TOKEN_SEARCH_BYTES ==> (b + x)[i] == b[i];
    } else if Resolve(b).FrameLength? {
      HeadColonStable(b, x);
      var e := DeclaredEnd(b);
      assert |b| >= e ==> (b + x)[e - 1] == b[e - 1];
      if !Resolve(b).trusted {
        var m := LengthFieldEnd(b) + MINIMUM_TRAILING_FIXED_BYTES;
        var t := IndexOf(b, HASH, m);
        var t' := IndexOf(b + x, HASH, m);
        assert (b + x)[t] == HASH;
        assert t' <= t;
        assert b[t'] == (b + x)[t'];
      }
    }
  }

  // ------------------------------------------------------------------
  // Draining a buffer: the loop of `push`
  // ------------------------------------------------------------------

  /** What became of a stretch of the stream. */
  datatype Segment =
    | Frame(bytes: Buffer, trusted: bool)
    | Resync(bytes: Buffer)
    | Overflow(bytes: Buffer)

  datatype Drained = Drained(segments: seq<Segment>, rest: Buffer)

  function Drain(b: Buffer): (d: Drained)
    ensures |d.rest| <= |b|
    decreases |b|
  {
    match Resolve(b)
    case NeedMore => Drained([], b)
    case Desync =>
      var t := IndexOf(b, HASH, 0);
      if t == -1 then Drained([], b)
      else
        var d := Drain(b[t + 1..]);
        d.(segments := [Resync(b[..t + 1])] + d.segments)
    case FrameLength(n, trusted) =>
      var d := Drain(b[n..]);
      d.(segments := [Frame(b[..n], trusted)] + d.segments)
  }

  datatype Pushed = Pushed(segments: seq<Segment>, pending: Buffer, overflowed: bool)

  function PushStep(pending: Buffer, chunk: Buffer, max: nat): Pushed {
    var d := Drain(pending + chunk);
    if |d.rest| > max then Pushed(d.segments + [Overflow(d.rest)], [], true)
    else Pushed(d.segments, d.rest, false)
  }

  /** The frames among some segments: what the pushes return. */
  function Emitted(segments: seq<Segment>): seq<Buffer> {
    if segments == [] then []
    else (if segments[0].Frame? then [segments[0].bytes] else []) + Emitted(segments[1..])
  }

  function SegmentBytes(segments: seq<Segment>): Buffer {
    if segments == [] then [] else segments[0].bytes + SegmentBytes(segments[1..])
  }

  lemma EmittedCons(s: Segment, rest: seq<Segment>)
    ensures Emitted([s] + rest) == (if s.Frame? then [s.bytes] else []) + Emitted(rest)
  {
    assert ([s] + rest)[1..] == rest;
  }

  lemma {:induction false} EmittedAppend(a: seq<Segment>, b: seq<Segment>)
    ensures Emitted(a + b) == Emitted(a) + Emitted(b)
  {
    if a == [] {
      assert a + b == b;
    } else {
      EmittedAppend(a[1..], b);
      Uncons(a, b);
      Assoc(if a[0].Frame? then [a[0].bytes] else [], Emitted(a[1..]), Emitted(b));
    }
  }

  lemma {:induction false} SegmentBytesAppend(a: seq<Segment>, b: seq<Segment>)
    ensures SegmentBytes(a + b) == SegmentBytes(a) + SegmentBytes(b)
  {
    if a == [] {
      assert a + b == b;
    } else {
      SegmentBytesAppend(a[1..], b);
      Uncons(a, b);
      Assoc(a[0].bytes, SegmentBytes(a[1..]), SegmentBytes(b));
    }
  }

  /** A frame was cut off some buffer by `Resolve`; a resync discard holds one `#`, its last byte. */
  ghost predicate Lawful(s: Segment) {
    match s
    case Frame(f, trusted) => CutByResolve(f, trusted)
    case Resync(x) => x != [] && x[|x| - 1] == HASH && forall i :: 0 <= i < |x| - 1 ==> x[i] != HASH
    case Overflow(_) => true
  }

  ghost predicate CutByResolve(f: Buffer, trusted: bool) {
    exists b {:trigger Resolve(b)} :: Resolve(b) == FrameLength(|f|, trusted) && f <= b
  }

  /** Nothing more can be extracted: an empty push would emit nothing and change nothing. */
  ghost predicate Settled(b: Buffer) {
    Drain(b) == Drained([], b)
  }

  lemma {:induction false} DrainConserves(b: Buffer)
    ensures SegmentBytes(Drain(b).segments) + Drain(b).rest == b
    decreases |b|
  {
    match Resolve(b)
    case NeedMore =>
    case Desync =>
      var t := IndexOf(b, HASH, 0);
      if t != -1 {
        ConsumeConserves(b, t + 1, Resync(b[..t + 1]));
      }
    case FrameLength(n, trusted) =>
      ConsumeConserves(b, n, Frame(b[..n], trusted));
  }

  lemma {:induction false} ConsumeConserves(b: Buffer, n: nat, s: Segment)
    requires 0 < n <= |b| && s.bytes == b[..n]
    ensures var d := Drain(b[n..]); SegmentBytes([s] + d.segments) + d.rest == b
    decreases |b|, 0
  {
    var d := Drain(b[n..]);
    DrainConserves(b[n..]);
    assert ([s] + d.segments)[1..] == d.segments;
    Assoc(b[..n], SegmentBytes(d.segments), d.rest);
    assert b == b[..n] + b[n..];
  }

  lemma {:induction false} DrainSettles(b: Buffer)
    ensures Settled(Drain(b).rest)
    decreases |b|
  {
    match Resolve(b)
    case NeedMore =>
    case Desync =>
      var t := IndexOf(b, HASH, 0);
      if t != -1 {
        DrainSettles(b[t + 1..]);
      }
    case FrameLength(n, _) => DrainSettles(b[n..]);
  }

  ghost predicate AllLawful(segments: seq<Segment>) {
    forall s :: s in segments ==> Lawful(s)
  }

  lemma {:induction false} DrainLawful(b: Buffer)
    ensures AllLawful(Drain(b).segments)
    decreases |b|
  {
    match Resolve(b)
    case NeedMore =>
    case Desync =>
      var t := IndexOf(b, HASH, 0);
      if t != -1 {
        DrainLawful(b[t + 1..]);
        assert Lawful(Resync(b[..t + 1]));
      }
    case FrameLength(n, trusted) =>
      DrainLawful(b[n..]);
      assert CutByResolve(b[..n], trusted);
      assert Lawful(Frame(b[..n], trusted));
  }

  // ------------------------------------------------------------------
  // Runs of pushes
  // ------------------------------------------------------------------

  datatype Run = Run(segments: seq<Segment>, pending: Buffer)

  function Feed(pending: Buffer, chunks: seq<Buffer>, max: nat): Run
    decreases chunks
  {
    if chunks == [] then Run([], pending)
    else
      var p := PushStep(pending, chunks[0], max);
      var r := Feed(p.pending, chunks[1..], max);
      r.(segments := p.segments + r.segments)
  }

  /** One push loses nothing silently. */
  lemma PushConserves(pending: Buffer, chunk: Buffer, max: nat)
    ensures var p := PushStep(pending, chunk, max);
            && SegmentBytes(p.segments) + p.pending == pending + chunk
            && |p.pending| <= max
            && Settled(p.pending)
            && AllLawful(p.segments)
  {
    var d := Drain(pending + chunk);
    DrainConserves(pending + chunk);
    DrainSettles(pending + chunk);
    DrainLawful(pending + chunk);
    if |d.rest| > max {
      SegmentBytesAppend(d.segments, [Overflow(d.rest)]);
      assert SegmentBytes([Overflow(d.rest)]) == d.rest + SegmentBytes([]);
    }
  }

  /** Stream conservation over every run of pushes. */
  lemma {:induction false} RunConserves(pending: Buffer, chunks: seq<Buffer>, max: nat)
    requires |pending| <= max && Settled(pending)
    ensures var r := Feed(pending, chunks, max);
            && SegmentBytes(r.segments) + r.pending == pending + Flatten(chunks)
            && |r.pending| <= max
            && Settled(r.pending)
            && AllLawful(r.segments)
    decreases chunks
  {
    if chunks == [] {
      assert pending + Flatten(chunks) == pending;
    } else {
      PushConserves(pending, chunks[0], max);
      var p := PushStep(pending, chunks[0], max);
      var r := Feed(p.pending, chunks[1..], max);
      RunConserves(p.pending, chunks[1..], max);
      calc {
        SegmentBytes(p.segments + r.segments) + r.pending;
        { SegmentBytesAppend(p.segments, r.segments); }
        (SegmentBytes(p.segments) + SegmentBytes(r.segments)) + r.pending;
        { Assoc(SegmentBytes(p.segments), SegmentBytes(r.segments), r.pending); }
        SegmentBytes(p.segments) + (p.pending + Flatten(chunks[1..]));
        { Assoc(SegmentBytes(p.segments), p.pending, Flatten(chunks[1..])); }
        (pending + chunks[0]) + Flatten(chunks[1..]);
        { Assoc(pending, chunks[0], Flatten(chunks[1..])); }
        pending + Flatten(chunks);
      }
    }
  }

  lemma EmptyPushIsIdle(pending: Buffer, max: nat)
    requires |pending| <= max && Settled(pending)
    ensures PushStep(pending, [], max) == Pushed([], pending, false)
  {
    assert pending + [] == pending;
  }

  // ------------------------------------------------------------------
  // Which frames the splitter can cut
  // ------------------------------------------------------------------

  /** What a cut leaves for the parser to find. */
  lemma CutGeometry(f: Buffer, trusted: bool)
    requires CutByResolve(f, trusted)
    ensures HeadColon(f) >= 0 && |f| > LengthFieldEnd(f) && f[|f| - 1] == HASH
    ensures trusted <==> |f| == DeclaredEnd(f)
    ensures !trusted ==> |f| - 1 - LengthFieldEnd(f) >= MINIMUM_TRAILING_FIXED_BYTES
  {
    var b :| Resolve(b) == FrameLength(|f|, trusted) && f <= b;
    assert b == f + b[|f|..];
    var c := HeadColon(b);
    assert |f| > LengthFieldEnd(b);
    assert f[c] == COLON && HeadColon(f) >= 0;
    HeadColonStable(f, b[|f|..]);
  }

  /** A colon in reach and a `#` behind the Length field. */
  ghost predicate Framed(f: Buffer) {
    HeadColon(f) >= 0 && |f| > LengthFieldEnd(f) && f[|f| - 1] == HASH
  }

  /** A frame whose Length is honest: it ends exactly at its own terminator. */
  ghost predicate Honest(f: Buffer) {
    HeadColon(f) >= 0 && |f| >= LengthFieldEnd(f) && DeclaredEnd(f) == |f| && f[|f| - 1] == HASH
  }

  /** No `#` where the fallback scan could stop before the terminator. */
  ghost predicate InnerHashFree(f: Buffer) {
    HeadColon(f) >= 0 && forall i :: LengthFieldEnd(f) + MINIMUM_TRAILING_FIXED_BYTES <= i < |f| - 1 ==> f[i] != HASH
  }

  /** A frame that the scan can find the end of, whatever its Length declares. */
  ghost predicate Scannable(f: Buffer) {
    InnerHashFree(f) && |f| > LengthFieldEnd(f) + MINIMUM_TRAILING_FIXED_BYTES && f[|f| - 1] == HASH
  }

  /** A wrong Length that happens to land on a `#` in the frame or in what follows it. */
  ghost predicate Misled(f: Buffer, x: Buffer)
    requires HeadColon(f) >= 0 && |f| >= LengthFieldEnd(f)
  {
    DeclaredEnd(f) != |f| && |f + x| >= DeclaredEnd(f) && (f + x)[DeclaredEnd(f) - 1] == HASH
  }

  /** A frame that is cut whole before `x`: its Length is right, or the scan finds its end and is not misled. */
  ghost predicate Survives(f: Buffer, x: Buffer) {
    Framed(f) && (DeclaredEnd(f) == |f| || (Scannable(f) && !Misled(f, x)))
  }

  lemma FramedResolves(f: Buffer, x: Buffer)
    requires Framed(f)
    ensures HeadColon(f + x) >= 0
    ensures Survives(f, x) ==> Resolve(f + x) == FrameLength(|f|, DeclaredEnd(f) == |f|)
    ensures !Survives(f, x) ==> Resolve(f + x).NeedMore? || (Resolve(f + x).FrameLength? && Resolve(f + x).n != |f|)
  {
    HeadColonStable(f, x);
    assert (f + x)[|f| - 1] == HASH;
    if DeclaredEnd(f) != |f| && !Misled(f, x) {
      var minimum := LengthFieldEnd(f) + MINIMUM_TRAILING_FIXED_BYTES;
      assert forall i :: minimum <= i < |f| - 1 ==> (f + x)[i] == f[i];
      if Scannable(f) {
        assert IndexOf(f + x, HASH, minimum) == |f| - 1;
      }
    }
  }

  /**
   * For all bytes: a frame is cut whole exactly if it survives what follows it. Right and wrong
   * Lengths are covered, and so are bytes that are no frame at all.
   */
  lemma FallbackRecovers(f: Buffer, x: Buffer)
    ensures Survives(f, x) <==> Resolve(f + x).FrameLength? && Resolve(f + x).n == |f|
    ensures Survives(f, x) ==> Resolve(f + x) == FrameLength(|f|, DeclaredEnd(f) == |f|)
  {
    if Resolve(f + x).FrameLength? && Resolve(f + x).n == |f| {
      CutIsFramed(f, x);
    }
    if Framed(f) {
      FramedResolves(f, x);
    }
  }

  lemma CutIsFramed(f: Buffer, x: Buffer)
    requires Resolve(f + x).FrameLength? && Resolve(f + x).n == |f|
    ensures Framed(f)
  {
    assert f <= f + x;
    CutGeometry(f, Resolve(f + x).trusted);
  }

  /** What misleads is the declared end. */
  lemma MisledEnd(f: Buffer, x: Buffer)
    requires Framed(f) && Misled(f, x)
    ensures Resolve(f + x) == FrameLength(DeclaredEnd(f), true)
  {
    HeadColonStable(f, x);
  }

  lemma {:induction false} EmittedFramed(segments: seq<Segment>)
    requires AllLawful(segments)
    ensures forall f :: f in Emitted(segments) ==> Framed(f)
  {
    if segments != [] {
      EmittedFramed(segments[1..]);
      if segments[0].Frame? {
        assert Lawful(segments[0]);
        CutGeometry(segments[0].bytes, segments[0].trusted);
      }
    }
  }

  /** One turn of the loop: what is taken off the buffer, and what that leaves to emit. */
  lemma DrainTurn(b: Buffer)
    ensures var d := Resolve(b);
            && (d.NeedMore? ==> Drain(b) == Drained([], b))
            && (d.Desync? ==>
                  var t := IndexOf(b, HASH, 0);
                  if t == -1 then Drain(b) == Drained([], b)
                  else
                    && Drain(b).rest == Drain(b[t + 1..]).rest
                    && Emitted(Drain(b).segments) == Emitted(Drain(b[t + 1..]).segments))
            && (d.FrameLength? ==>
                  && Drain(b).rest == Drain(b[d.n..]).rest
                  && Emitted(Drain(b).segments) == [b[..d.n]] + Emitted(Drain(b[d.n..]).segments))
  {
    match Resolve(b)
    case NeedMore =>
    case Desync =>
      var t := IndexOf(b, HASH, 0);
      if t != -1 {
        EmittedCons(Resync(b[..t + 1]), Drain(b[t + 1..]).segments);
      }
    case FrameLength(n, trusted) =>
      EmittedCons(Frame(b[..n], trusted), Drain(b[n..]).segments);
  }

  lemma DrainSurvivor(f: Buffer, x: Buffer)
    requires Survives(f, x)
    ensures Drain(f + x) == Drained([Frame(f, DeclaredEnd(f) == |f|)] + Drain(x).segments, Drain(x).rest)
  {
    FallbackRecovers(f, x);
    assert (f + x)[..|f|] == f && (f + x)[|f|..] == x;
  }

  /** A frame that does not survive is not the first one emitted. */
  lemma DrainCasualty(f: Buffer, x: Buffer)
    requires !Survives(f, x)
    ensures var e := Emitted(Drain(f + x).segments); e == [] || e[0] != f
  {
    if Framed(f) {
      FramedResolves(f, x);
      DrainTurn(f + x);
    } else {
      DrainLawful(f + x);
      EmittedFramed(Drain(f + x).segments);
    }
  }

  // ------------------------------------------------------------------
  // Streams of frames, in one push
  // ------------------------------------------------------------------

  /** Every frame survives what follows it in the stream of `fs` and `tail`. */
  ghost predicate AllSurvive(fs: seq<Buffer>, tail: Buffer) {
    fs == [] || (Survives(fs[0], Flatten(fs[1..]) + tail) && AllSurvive(fs[1..], tail))
  }

  ghost predicate AllHonest(fs: seq<Buffer>) {
    forall f :: f in fs ==> Honest(f)
  }

  lemma {:induction false} HonestSurvive(fs: seq<Buffer>, tail: Buffer)
    requires AllHonest(fs)
    ensures AllSurvive(fs, tail)
  {
    if fs != [] {
      assert Honest(fs[0]);
      HonestSurvive(fs[1..], tail);
    }
  }

  lemma SurvivesLess(f: Buffer, x: Buffer, y: Buffer)
    requires Survives(f, x) && y <= x
    ensures Survives(f, y)
  {
    assert forall i :: 0 <= i < |f + y| ==> (f + y)[i] == (f + x)[i];
  }

  /** The first frames of a stream survive any part of what follows them. */
  lemma {:induction false} SurviveSplit(head: seq<Buffer>, more: seq<Buffer>, part: Buffer)
    requires AllSurvive(head + more, []) && part <= Flatten(more)
    ensures AllSurvive(head, part) && AllSurvive(more, [])
  {
    if head == [] {
      assert head + more == more;
    } else {
      Uncons(head, more);
      SurviveSplit(head[1..], more, part);
      FlattenAppend(head[1..], more);
      var whole := Flatten(head[1..] + more) + [];
      assert Flatten(head[1..]) + part <= whole;
      SurvivesLess(head[0], whole, Flatten(head[1..]) + part);
    }
  }

  lemma {:induction false} SurvivorsFramed(fs: seq<Buffer>, tail: Buffer)
    requires AllSurvive(fs, tail)
    ensures forall f :: f in fs ==> Framed(f)
  {
    if fs != [] {
      SurvivorsFramed(fs[1..], tail);
    }
  }

  /** Delivered in one push, surviving frames come out whole. */
  lemma {:induction false} DrainWhole(fs: seq<Buffer>, tail: Buffer)
    requires AllSurvive(fs, tail)
    ensures Emitted(Drain(Flatten(fs) + tail).segments) == fs + Emitted(Drain(tail).segments)
    ensures Drain(Flatten(fs) + tail).rest == Drain(tail).rest
  {
    if fs == [] {
      assert Flatten(fs) + tail == tail;
    } else {
      var f, x := fs[0], Flatten(fs[1..]) + tail;
      Assoc(f, Flatten(fs[1..]), tail);
      DrainSurvivor(f, x);
      DrainWhole(fs[1..], tail);
      EmittedCons(Frame(f, DeclaredEnd(f) == |f|), Drain(x).segments);
      Assoc([f], fs[1..], Emitted(Drain(tail).segments));
      assert fs == [f] + fs[1..];
    }
  }

  /**
   * For every list of byte strings: their stream drains to exactly this list if and only if each
   * of them survives what follows it.
   */
  lemma {:induction false} RecoveredExactly(fs: seq<Buffer>)
    ensures Emitted(Drain(Flatten(fs)).segments) == fs <==> AllSurvive(fs, [])
    ensures AllSurvive(fs, []) ==> Drain(Flatten(fs)).rest == []
  {
    if fs != [] {
      var f, x := fs[0], Flatten(fs[1..]);
      assert x + [] == x && Flatten(fs) == f + x && fs == [f] + fs[1..];
      RecoveredExactly(fs[1..]);
      if Survives(f, x) {
        DrainSurvivor(f, x);
        EmittedCons(Frame(f, DeclaredEnd(f) == |f|), Drain(x).segments);
        assert ([f] + Emitted(Drain(x).segments))[1..] == Emitted(Drain(x).segments);
      } else {
        DrainCasualty(f, x);
      }
    }
  }

  ghost predicate Delivers(pending: Buffer, chunks: seq<Buffer>, fs: seq<Buffer>, max: nat) {
    var r := Feed(pending, chunks, max);
    Emitted(r.segments) == fs && r.pending == []
  }

  lemma EmittedByPush(pending: Buffer, chunk: Buffer, max: nat)
    ensures Emitted(PushStep(pending, chunk, max).segments) == Emitted(Drain(pending + chunk).segments)
  {
    var d := Drain(pending + chunk);
    EmittedAppend(d.segments, [Overflow(d.rest)]);
    assert Emitted([Overflow(d.rest)]) == [];
  }

  /** What a single push into an empty buffer emits and leaves. */
  lemma FeedOne(b: Buffer, max: nat)
    ensures var r := Feed([], [b], max);
            && Emitted(r.segments) == Emitted(Drain(b).segments)
            && r.pending == if |Drain(b).rest| > max then [] else Drain(b).rest
  {
    EmittedByPush([], b, max);
    assert [] + b == b;
    var p := PushStep([], b, max);
    assert Feed(p.pending, [b][1..], max) == Run([], p.pending);
    assert p.segments + [] == p.segments;
  }

  /** The same for a push into an empty buffer, which then leaves nothing pending. */
  lemma OnePushRecovers(fs: seq<Buffer>, max: nat)
    ensures Delivers([], [Flatten(fs)], fs, max) <==> AllSurvive(fs, [])
  {
    RecoveredExactly(fs);
    FeedOne(Flatten(fs), max);
  }

  /** In a single push there is no condition on `#` bytes or on size for honest frames. */
  lemma OnePushDelivers(fs: seq<Buffer>, max: nat)
    requires AllHonest(fs)
    ensures Delivers([], [Flatten(fs)], fs, max)
  {
    HonestSurvive(fs, []);
    OnePushRecovers(fs, max);
  }

  // ------------------------------------------------------------------
  // Chunk independence
  // ------------------------------------------------------------------

  /** The condition on frames that makes the chunking irrelevant. */
  ghost predicate Robust(f: Buffer, max: nat) {
    InnerHashFree(f) && |f| - 1 <= max
  }

  lemma PartialHead(f: Buffer, k: nat)
    requires Framed(f) && k < |f|
    ensures k > HeadColon(f) ==> HeadColon(f[..k]) == HeadColon(f)
    ensures k >= LengthFieldEnd(f) ==> DeclaredEnd(f[..k]) == DeclaredEnd(f)
    ensures k < LengthFieldEnd(f) ==> Resolve(f[..k]) == NeedMore
  {
    var p := f[..k];
    if k > HeadColon(f) {
      assert p[HeadColon(f)] == COLON;
      assert HeadColon(p) >= 0;
      HeadColonStable(p, f[k..]);
      assert p + f[k..] == f;
    } else {
      assert forall i :: 0 <= i < k ==> p[i] == f[i];
    }
  }

  /** Nothing is cut from an incomplete frame without an inner `#`. */
  lemma PartialFrame(f: Buffer, k: nat, x: Buffer)
    requires Survives(f, x) && InnerHashFree(f) && k < |f|
    ensures Resolve(f[..k]) == NeedMore
    ensures Drain(f[..k]) == Drained([], f[..k])
  {
    PartialHead(f, k);
    var end := DeclaredEnd(f);
    assert end < |f| ==> (f + x)[end - 1] == f[end - 1];
  }

  /** The start of the frame that a push leaves incomplete. */
  function Remainder(more: seq<Buffer>, part: nat): Buffer
    requires more != [] ==> part <= |more[0]|
  {
    if more == [] then [] else more[0][..part]
  }

  /** A first part of a stream of frames is some whole frames and a proper part of the next one. */
  lemma {:induction false} SplitStream(fs: seq<Buffer>, a: Buffer, b: Buffer)
    returns (head: seq<Buffer>, more: seq<Buffer>, part: nat)
    requires a + b == Flatten(fs)
    ensures fs == head + more && (more != [] ==> part < |more[0]|)
    ensures a == Flatten(head) + Remainder(more, part)
    ensures Remainder(more, part) + b == Flatten(more)
  {
    if fs == [] || |a| < |fs[0]| {
      head, more, part := [], fs, |a|;
      assert a == Flatten(fs)[..|a|];
    } else {
      var f := fs[0];
      BehindFrame(f, Flatten(fs[1..]), a, b);
      head, more, part := SplitStream(fs[1..], a[|f|..], b);
      FlattenCons(f, head);
      Assoc(f, Flatten(head), Remainder(more, part));
      Assoc([f], head, more);
      head := [f] + head;
      assert fs == [f] + fs[1..];
    }
  }

  lemma BehindFrame(f: Buffer, rest: Buffer, a: Buffer, b: Buffer)
    requires a + b == f + rest && |a| >= |f|
    ensures a == f + a[|f|..] && a[|f|..] + b == rest
  {
    assert a[..|f|] == (a + b)[..|f|] == f;
    assert a[|f|..] + b == (a + b)[|f|..] == rest;
  }

  lemma FlattenCons(f: Buffer, fs: seq<Buffer>)
    ensures Flatten([f] + fs) == f + Flatten(fs)
  {
    assert ([f] + fs)[1..] == fs;
  }

  lemma {:induction false} RobustFramesArrive(pending: Buffer, chunks: seq<Buffer>, fs: seq<Buffer>, max: nat)
    requires AllSurvive(fs, []) && forall f :: f in fs ==> Robust(f, max)
    requires pending + Flatten(chunks) == Flatten(fs)
    requires fs == [] || |pending| < |fs[0]|
    ensures Delivers(pending, chunks, fs, max)
    decreases chunks
  {
    assert fs != [] ==> |Flatten(fs)| >= |fs[0]|;
    if chunks == [] {
      assert pending + Flatten(chunks) == pending;
    } else {
      Assoc(pending, chunks[0], Flatten(chunks[1..]));
      var head, more, part := SplitStream(fs, pending + chunks[0], Flatten(chunks[1..]));
      var rest := Remainder(more, part);
      SurviveSplit(head, more, rest);
      PushWhole(pending, chunks[0], head, more, part, max);
      RobustFramesArrive(rest, chunks[1..], more, max);
      EmittedAppend(PushStep(pending, chunks[0], max).segments, Feed(rest, chunks[1..], max).segments);
    }
  }

  /** A push that completes `head` and begins the next frame emits exactly `head`. */
  lemma PushWhole(pending: Buffer, chunk: Buffer, head: seq<Buffer>, more: seq<Buffer>, part: nat, max: nat)
    requires more != [] ==> part < |more[0]| && Robust(more[0], max)
    requires AllSurvive(head, Remainder(more, part)) && AllSurvive(more, [])
    requires pending + chunk == Flatten(head) + Remainder(more, part)
    ensures var p := PushStep(pending, chunk, max);
            Emitted(p.segments) == head && p.pending == Remainder(more, part)
  {
    var rest := Remainder(more, part);
    if more != [] {
      PartialFrame(more[0], part, Flatten(more[1..]) + []);
    }
    DrainWhole(head, rest);
    assert Drain(rest) == Drained([], rest);
    assert head + [] == head;
  }

  /** Whatever the later pushes do, the frames of the first one stay emitted. */
  lemma FirstPushStays(first: Buffer, second: Buffer, max: nat)
    ensures Emitted(Drain(first).segments) <= Emitted(Feed([], [first, second], max).segments)
  {
    assert [] + first == first;
    var d := Drain(first);
    var s := PushStep([], first, max);
    EmittedAppend(d.segments, [Overflow(d.rest)]);
    assert Emitted([Overflow(d.rest)]) == [];
    assert Emitted(s.segments) == Emitted(d.segments);
    assert [first, second][1..] == [second];
    EmittedAppend(s.segments, Feed(s.pending, [second], max).segments);
  }

  /** A first push that puts a shorter frame in the place of `fs[k]` cannot be made good. */
  lemma ShortFrameStays(fs: seq<Buffer>, k: nat, x: Buffer, second: Buffer, max: nat)
    requires k < |fs| && AllSurvive(fs[..k], x)
    requires var e := Emitted(Drain(x).segments); e != [] && |e[0]| < |fs[k]|
    ensures !Delivers([], [Flatten(fs[..k]) + x, second], fs, max)
  {
    var e, first := Emitted(Drain(x).segments), Flatten(fs[..k]) + x;
    DrainWhole(fs[..k], x);
    FirstPushStays(first, second, max);
    var all := Emitted(Feed([], [first, second], max).segments);
    assert fs[..k] + e <= all;
    assert all[k] == (fs[..k] + e)[k] == e[0];
  }

  /** The frames before the `k`-th survive any first part of it, and it survives the rest. */
  lemma SurviveUpTo(fs: seq<Buffer>, k: nat, n: nat)
    requires AllSurvive(fs, []) && k < |fs| && n <= |fs[k]|
    ensures AllSurvive(fs[..k], fs[k][..n]) && Survives(fs[k], Flatten(fs[k + 1..]) + [])
  {
    var more := fs[k..];
    assert fs == fs[..k] + more && more[1..] == fs[k + 1..];
    assert fs[k][..n] <= Flatten(more);
    SurviveSplit(fs[..k], more, fs[k][..n]);
  }

  /** Cutting a frame after an inner `#` makes the splitter emit a shorter frame in its place. */
  lemma InnerHashBreaks(fs: seq<Buffer>, k: nat, max: nat) returns (chunks: seq<Buffer>)
    requires AllSurvive(fs, []) && k < |fs| && !InnerHashFree(fs[k])
    ensures Flatten(chunks) == Flatten(fs)
    ensures !Delivers([], chunks, fs, max)
  {
    SurviveUpTo(fs, k, 0);
    var n := ShortFrame(fs[k]);
    SurviveUpTo(fs, k, n);
    chunks := CutStream(fs, k, n);
    ShortFrameStays(fs, k, fs[k][..n], chunks[1], max);
  }

  /** An inner `#` ends a shorter frame when nothing behind it has arrived. */
  lemma ShortFrame(f: Buffer) returns (n: nat)
    requires Honest(f) && !InnerHashFree(f)
    ensures n < |f| && var e := Emitted(Drain(f[..n]).segments); e != [] && |e[0]| < |f|
  {
    var i :| LengthFieldEnd(f) + MINIMUM_TRAILING_FIXED_BYTES <= i < |f| - 1 && f[i] == HASH;
    n := i + 1;
    var p := f[..i + 1];
    PartialHead(f, i + 1);
    assert p[i] == HASH;
    assert Resolve(p).FrameLength?;
  }

  /** The stream cut in two, inside frame `k`. */
  lemma CutStream(fs: seq<Buffer>, k: nat, i: nat) returns (chunks: seq<Buffer>)
    requires k < |fs| && i <= |fs[k]|
    ensures Flatten(chunks) == Flatten(fs)
    ensures |chunks| == 2 && chunks == [Flatten(fs[..k]) + fs[k][..i], chunks[1]]
  {
    var f := fs[k];
    var a, b := Flatten(fs[..k]) + f[..i], f[i..] + Flatten(fs[k + 1..]);
    chunks := [a, b];
    calc {
      Flatten([a, b]);
      a + Flatten([a, b][1..]);
      { assert [a, b][1..] == [b]; assert Flatten([b]) == b + Flatten([b][1..]); }
      a + b;
      { assert f[..i] + f[i..] == f; }
      Flatten(fs[..k]) + (f + Flatten(fs[k + 1..]));
      { assert fs[k..][1..] == fs[k + 1..]; }
      Flatten(fs[..k]) + Flatten(fs[k..]);
      { FlattenAppend(fs[..k], fs[k..]); assert fs[..k] + fs[k..] == fs; }
      Flatten(fs);
    }
  }

  lemma {:induction false} EmittedFits(segments: seq<Segment>)
    ensures |Flatten(Emitted(segments))| <= |SegmentBytes(segments)|
    ensures forall i :: 0 <= i < |segments| && segments[i].Overflow? ==>
      |Flatten(Emitted(segments))| + |segments[i].bytes| <= |SegmentBytes(segments)|
  {
    if segments != [] {
      EmittedFits(segments[1..]);
      var here := if segments[0].Frame? then [segments[0].bytes] else [];
      FlattenAppend(here, Emitted(segments[1..]));
      assert Flatten(here) == if segments[0].Frame? then segments[0].bytes else [];
      forall i | 0 <= i < |segments| && segments[i].Overflow?
        ensures |Flatten(Emitted(segments))| + |segments[i].bytes| <= |SegmentBytes(segments)|
      {
        if i > 0 {
          assert segments[i] == segments[1..][i - 1];
        }
      }
    }
  }

  /** A first push that overflows leaves its overflow in the run. */
  lemma OverflowStays(fs: seq<Buffer>, x: Buffer, second: Buffer, max: nat)
    requires AllSurvive(fs, x) && Drain(x).rest == x && |x| > max
    ensures Overflow(x) in Feed([], [Flatten(fs) + x, second], max).segments
  {
    var first := Flatten(fs) + x;
    DrainWhole(fs, x);
    assert [] + first == first;
    var s := PushStep([], first, max);
    assert s.segments[|s.segments| - 1] == Overflow(x);
    assert Overflow(x) in s.segments;
    assert [first, second][0] == first;
  }

  /** Bytes lost to an overflow are missing from the frames. */
  lemma OverflowLoses(chunks: seq<Buffer>, fs: seq<Buffer>, x: Buffer, max: nat)
    requires Flatten(chunks) == Flatten(fs) && x != [] && Overflow(x) in Feed([], chunks, max).segments
    ensures !Delivers([], chunks, fs, max)
  {
    var r := Feed([], chunks, max);
    assert Settled([]);
    RunConserves([], chunks, max);
    assert [] + Flatten(chunks) == Flatten(chunks);
    EmittedFits(r.segments);
    var i :| 0 <= i < |r.segments| && r.segments[i] == Overflow(x);
    assert |Flatten(Emitted(r.segments))| + |x| <= |SegmentBytes(r.segments)| <= |Flatten(fs)|;
  }

  /** A frame longer than the buffer is lost when only its terminator is late. */
  lemma OversizeBreaks(fs: seq<Buffer>, k: nat, max: nat) returns (chunks: seq<Buffer>)
    requires AllSurvive(fs, []) && k < |fs| && InnerHashFree(fs[k]) && |fs[k]| - 1 > max
    ensures Flatten(chunks) == Flatten(fs)
    ensures !Delivers([], chunks, fs, max)
  {
    var n := |fs[k]| - 1;
    var x := fs[k][..n];
    SurviveUpTo(fs, k, n);
    chunks := CutStream(fs, k, n);
    WaitsForTerminator(fs, k);
    OverflowStays(fs[..k], x, chunks[1], max);
    OverflowLoses(chunks, fs, x, max);
  }

  lemma WaitsForTerminator(fs: seq<Buffer>, k: nat)
    requires AllSurvive(fs, []) && k < |fs| && InnerHashFree(fs[k]) && |fs[k]| > 1
    ensures Drain(fs[k][..|fs[k]| - 1]).rest == fs[k][..|fs[k]| - 1]
  {
    SurviveUpTo(fs, k, |fs[k]| - 1);
    PartialFrame(fs[k], |fs[k]| - 1, Flatten(fs[k + 1..]) + []);
  }

  ghost predicate AlwaysDelivers(fs: seq<Buffer>, max: nat) {
    forall chunks: seq<Buffer> :: Flatten(chunks) == Flatten(fs) ==> Delivers([], chunks, fs, max)
  }

  /**
   * Chunk-independent framing, exactly, for every list of byte strings: every way of cutting their
   * stream into pushes emits exactly this list and leaves nothing pending, if and only if each of
   * them survives what follows it, holds no inner `#` within reach of the fallback scan, and fits
   * the buffer without its terminator.
   */
  lemma ChunkIndependence(fs: seq<Buffer>, max: nat)
    ensures AlwaysDelivers(fs, max) <==> AllSurvive(fs, []) && forall f :: f in fs ==> Robust(f, max)
  {
    assert Flatten([Flatten(fs)]) == Flatten(fs) + Flatten([Flatten(fs)][1..]) == Flatten(fs);
    OnePushRecovers(fs, max);
    if AllSurvive(fs, []) {
      if forall f :: f in fs ==> Robust(f, max) {
        forall chunks: seq<Buffer> | Flatten(chunks) == Flatten(fs)
          ensures Delivers([], chunks, fs, max)
        {
          assert [] + Flatten(chunks) == Flatten(fs);
          RobustFramesArrive([], chunks, fs, max);
        }
      } else {
        var f :| f in fs && !Robust(f, max);
        var k :| 0 <= k < |fs| && fs[k] == f;
        SomeChunkingBreaks(fs, k, max);
      }
    }
  }

  lemma SomeChunkingBreaks(fs: seq<Buffer>, k: nat, max: nat)
    requires AllSurvive(fs, []) && k < |fs| && !Robust(fs[k], max)
    ensures !AlwaysDelivers(fs, max)
  {
    if !InnerHashFree(fs[k]) {
      var chunks := InnerHashBreaks(fs, k, max);
    } else {
      var chunks := OversizeBreaks(fs, k, max);
    }
  }

  /** For honest frames the condition is on the frames alone. */
  lemma HonestChunks(fs: seq<Buffer>, max: nat)
    requires AllHonest(fs)
    ensures AlwaysDelivers(fs, max) <==> forall f :: f in fs ==> Robust(f, max)
  {
    HonestSurvive(fs, []);
    ChunkIndependence(fs, max);
  }

  // ------------------------------------------------------------------
  // Resync
  // ------------------------------------------------------------------

  /** Bytes without a head token, up to and including their only `#`. */
  ghost predicate Junk(j: Buffer) {
    && j != [] && j[|j| - 1] == HASH
    && (forall i :: 0 <= i < |j| - 1 ==> j[i] != HASH)
    && (forall i :: 0 <= i < |j| && i < MAX_HEAD_TOKEN_SEARCH_BYTES ==> j[i] != COLON)
  }

  lemma JunkDropped(j: Buffer, f: Buffer, x: Buffer)
    requires Junk(j) && HeadColon(f) >= 0 && |j| + HeadColon(f) >= MAX_HEAD_TOKEN_SEARCH_BYTES
    ensures Resolve(j + (f + x)) == Desync && IndexOf(j + (f + x), HASH, 0) == |j| - 1
  {
    var b := j + (f + x);
    assert forall i :: 0 <= i < |b| ==> b[i] == if i < |j| then j[i] else (f + x)[i - |j|];
    assert forall i :: 0 <= i < |f| ==> (f + x)[i] == f[i];
    assert HeadColon(b) == -1;
    assert b[|j| - 1] == HASH;
  }

  /** Junk too short to push the colon out of the search window becomes the start of the frame behind it. */
  lemma JunkSticks(j: Buffer, f: Buffer, x: Buffer)
    requires Junk(j) && Honest(f) && |j| + HeadColon(f) < MAX_HEAD_TOKEN_SEARCH_BYTES
    ensures Resolve(j + (f + x)) == FrameLength(|j| + |f|, true)
  {
    var b := j + (f + x);
    var c := HeadColon(f);
    assert forall i :: 0 <= i < |j| ==> b[i] == j[i];
    assert forall i :: 0 <= i < |f| ==> b[|j| + i] == f[i];
    assert b[|j| + c] == COLON && HeadColon(b) == |j| + c;
    assert b[|j|..|j| + |f|] == f;
    UIntAtShift(b, |j|, |j| + |f|, c + 1, LENGTH_FIELD_BYTES);
    assert DeclaredEnd(b) == |j| + |f|;
  }

  /**
   * Resync recovers exactly when the junk reaches far enough: then it is dropped and the frames
   * behind it come out; otherwise it sticks to the first of them.
   */
  lemma ResyncExactly(j: Buffer, fs: seq<Buffer>, max: nat)
    requires Junk(j) && AllSurvive(fs, []) && fs != [] && Honest(fs[0])
    ensures Delivers([], [j + Flatten(fs)], fs, max) <==> |j| + HeadColon(fs[0]) >= MAX_HEAD_TOKEN_SEARCH_BYTES
    ensures |j| + HeadColon(fs[0]) < MAX_HEAD_TOKEN_SEARCH_BYTES ==>
              var e := Emitted(Feed([], [j + Flatten(fs)], max).segments); e != [] && e[0] == j + fs[0]
  {
    var f, x := fs[0], Flatten(fs[1..]);
    FeedOne(j + (f + x), max);
    if |j| + HeadColon(f) >= MAX_HEAD_TOKEN_SEARCH_BYTES {
      DrainBehindJunk(j, f, x);
      RecoveredExactly(fs);
    } else {
      DrainWithJunk(j, f, x);
    }
  }

  lemma DrainBehindJunk(j: Buffer, f: Buffer, x: Buffer)
    requires Junk(j) && HeadColon(f) >= 0 && |j| + HeadColon(f) >= MAX_HEAD_TOKEN_SEARCH_BYTES
    ensures var d, e := Drain(j + (f + x)), Drain(f + x); Emitted(d.segments) == Emitted(e.segments) && d.rest == e.rest
  {
    JunkDropped(j, f, x);
    DrainTurn(j + (f + x));
    assert (j + (f + x))[|j|..] == f + x;
  }

  lemma DrainWithJunk(j: Buffer, f: Buffer, x: Buffer)
    requires Junk(j) && Honest(f) && |j| + HeadColon(f) < MAX_HEAD_TOKEN_SEARCH_BYTES
    ensures var e := Emitted(Drain(j + (f + x)).segments); e != [] && e[0] == j + f && e[0] != f
  {
    JunkSticks(j, f, x);
    DrainTurn(j + (f + x));
    assert (j + (f + x))[..|j| + |f|] == j + f;
    assert |j + f| != |f|;
  }

  // ------------------------------------------------------------------
  // Witnesses
  // ------------------------------------------------------------------

  /** A heartbeat with serial number 0x2301: honest, but its first serial byte is a `#`. */
  lemma Heartbeat2301() returns (f: Buffer)
    ensures |f| == 28 && f[0] == 0x2B && f[1] == 0x48 && f[2] == 0x42 && f[3] == 0x44
    ensures f[4] == COLON && f[5] == 0 && f[6] == 0x14 && f[25] == HASH && f[26] == 0x01 && f[27] == HASH
  {
    f := [
      0x2B, 0x48, 0x42, 0x44, 0x3A,  0x00, 0x14,                     // "+HBD:", Length 20
      0x0D, 0x39, 0x5A, 0x18, 0x44, 0x0B, 0x16, 0x05,  0x20,         // IMEI, device id
      0x0B, 0x01,  0x07, 0xEA, 0x07, 0x07, 0x0C, 0x22, 0x38,         // version, GTime
      0x23, 0x01,  0x23];                                            // serial number, '#'
  }

  /** The `#` hypothesis is needed: split right after the serial number's high byte, this heartbeat is cut short. */
  lemma InnerHashWitness() returns (f: Buffer)
    ensures Honest(f) && |f| == 28 && Resolve(f) == FrameLength(28, true)
    ensures Resolve(f[..26]) == FrameLength(26, false)
  {
    f := Heartbeat2301();
    assert HeadColon(f) == 4;
    assert UIntAt(f, 5, 2) == 256 * UIntAt(f, 5, 1) + f[6] as nat;
    assert UIntAt(f, 5, 1) == 256 * UIntAt(f, 5, 0) + f[5] as nat;
    assert DeclaredEnd(f) == 28;
    PartialHead(f, 26);
    assert f[..26][25] == HASH;
  }

  /** The same heartbeat with its total size, 28, as Length. */
  lemma TotalSizeHeartbeat() returns (f: Buffer)
    ensures |f| == 28 && HeadColon(f) == 4 && f[5] == 0 && f[6] == 0x1C && f[25] == HASH && f[27] == HASH
  {
    f := Heartbeat2301();
    f := f[6 := 0x1C];
    assert f[4] == COLON && f[0] != COLON && f[1] != COLON && f[2] != COLON && f[3] != COLON;
  }

  /**
   * It is not misled, and yet it is cut short even when it is delivered whole, because the scan
   * stops in its serial number.
   */
  lemma TotalSizeHashWitness() returns (f: Buffer)
    ensures Framed(f) && |f| == 28 && DeclaredEnd(f) == LengthFieldEnd(f) + |f| + 1
    ensures !Misled(f, []) && Emitted(Drain(Flatten([f])).segments) != [f]
  {
    f := TotalSizeHeartbeat();
    assert UIntAt(f, 5, 2) == 256 * UIntAt(f, 5, 1) + f[6] as nat;
    assert UIntAt(f, 5, 1) == 256 * UIntAt(f, 5, 0) + f[5] as nat;
    assert !InnerHashFree(f) by {
      assert f[25] == HASH;
    }
    RecoveredExactly([f]);
  }

  // ------------------------------------------------------------------
  // The splitter object
  // ------------------------------------------------------------------

  lemma ValidAfter(history: seq<Segment>, pending: Buffer, chunk: Buffer, max: nat)
    requires AllLawful(history)
    ensures var p := PushStep(pending, chunk, max);
            && SegmentBytes(history + p.segments) + p.pending == (SegmentBytes(history) + pending) + chunk
            && AllLawful(history + p.segments)
            && |p.pending| <= max
            && Settled(p.pending)
  {
    var p := PushStep(pending, chunk, max);
    PushConserves(pending, chunk, max);
    SegmentBytesAppend(history, p.segments);
    Assoc(SegmentBytes(history), SegmentBytes(p.segments), p.pending);
    Assoc(SegmentBytes(history), pending, chunk);
  }

  class TrackerFrameSplitter {
    var buffer: Buffer
    const maxBufferBytes: nat
    /** All bytes pushed so far, and what became of those no longer buffered. */
    ghost var received: Buffer
    ghost var history: seq<Segment>

    ghost predicate Valid()
      reads this
    {
      && SegmentBytes(history) + buffer == received
      && AllLawful(history)
      && |buffer| <= maxBufferBytes
      && Settled(buffer)
    }

    constructor (maxBufferBytes: nat := 64 * 1024)
      ensures Valid() && this.maxBufferBytes == maxBufferBytes
      ensures buffer == received == [] && history == []
    {
      buffer := [];
      received, history := [], [];
      this.maxBufferBytes := maxBufferBytes;
    }

    /** The loop of `push`. */
    method ExtractFrames() returns (frames: seq<Buffer>)
      modifies this`buffer
      ensures frames == Emitted(Drain(old(buffer)).segments)
      ensures buffer == Drain(old(buffer)).rest
    {
      ghost var all := Drain(buffer);
      frames := [];
      while true
        invariant Continues(frames, Drain(buffer), all)
        decreases |buffer|
      {
        DrainTurn(buffer);
        LoopTurn(frames, buffer, all);
        var decision := Resolve(buffer);
        if decision.NeedMore? {
          break;
        }
        if decision.Desync? {
          var terminatorIndex := IndexOf(buffer, HASH, 0);
          if terminatorIndex == -1 {
            break;
          }
          buffer := buffer[terminatorIndex + 1..];
          continue;
        }
        if |buffer| < decision.n {
          break;
        }
        frames, buffer := frames + [buffer[..decision.n]], buffer[decision.n..];
      }
    }

    method Push(chunk: Buffer) returns (frames: seq<Buffer>, overflowed: bool)
      requires Valid()
      modifies this
      ensures Valid()
      ensures received == old(received) + chunk
      ensures var p := PushStep(old(buffer), chunk, maxBufferBytes);
              && history == old(history) + p.segments
              && frames == Emitted(p.segments)
              && buffer == p.pending
              && overflowed == p.overflowed
    {
      buffer := if |buffer| == 0 then chunk else buffer + chunk;
      assert buffer == old(buffer) + chunk;
      frames := ExtractFrames();

      EmittedByPush(old(buffer), chunk, maxBufferBytes);
      overflowed := false;
      if |buffer| > maxBufferBytes {
        overflowed := true;
        buffer := [];
      }

      ghost var p := PushStep(old(buffer), chunk, maxBufferBytes);
      ValidAfter(history, old(buffer), chunk, maxBufferBytes);
      history := history + p.segments;
      received := received + chunk;
    }

    function PendingByteCount(): (n: nat)
      requires Valid()
      reads this
      ensures n <= maxBufferBytes
      ensures n + |SegmentBytes(history)| == |received|
    {
      |buffer|
    }

    method Reset()
      requires Valid()
      modifies this
      ensures Valid() && buffer == []
      ensures received == old(received) && history == old(history) + [Overflow(old(buffer))]
    {
      SegmentBytesAppend(history, [Overflow(buffer)]);
      assert SegmentBytes([Overflow(buffer)]) == buffer + SegmentBytes([]);
      history := history + [Overflow(buffer)];
      buffer := [];
    }
  }

  /** Where the loop of `push` stands: `frames` are taken of those in `all`, and `left` is to come. */
  ghost predicate Continues(frames: seq<Buffer>, left: Drained, all: Drained) {
    frames + Emitted(left.segments) == Emitted(all.segments) && left.rest == all.rest
  }

  lemma LoopTurn(frames: seq<Buffer>, b: Buffer, all: Drained)
    requires Continues(frames, Drain(b), all)
    ensures var d := Resolve(b);
            && (Drain(b) == Drained([], b) ==> frames == Emitted(all.segments) && b == all.rest)
            && (d.Desync? && IndexOf(b, HASH, 0) != -1 ==> Continues(frames, Drain(b[IndexOf(b, HASH, 0) + 1..]), all))
            && (d.FrameLength? ==> Continues(frames + [b[..d.n]], Drain(b[d.n..]), all))
  {
    DrainTurn(b);
    assert frames + [] == frames;
    if Resolve(b).FrameLength? {
      var n := Resolve(b).n;
      Assoc(frames, [b[..n]], Emitted(Drain(b[n..]).segments));
    }
  }
}
