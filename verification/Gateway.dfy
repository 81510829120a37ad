/**
 * The gateway as a whole: sockets deliver chunks, every open socket has its own splitter buffer,
 * and the frames a chunk completes are handled one by one as steps of the connection model.
 */
module Gateway {
  import opened Bytes
  import opened FrameSplitter
  import opened Server
  import AsciiZone
  import DeviceStore
  import FrameContents
  import FrameParser

  // ------------------------------------------------------------------
  // What the server makes of a frame
  // ------------------------------------------------------------------

  function KindOf(kind: FrameParser.Kind): FrameKind {
    if FrameParser.IsReport(kind) then ReportFrame
    else if FrameParser.IsHeartbeat(kind) then HeartbeatFrame
    else OtherFrame
  }

  function IncomingOf(parsed: FrameParser.ParsedFrame): Incoming {
    Parsed(KindOf(parsed.kind), parsed.header.imei, parsed.header.serialNumber, DeviceStore.HasReport(parsed))
  }

  /** A delimited frame as the connection model sees it. */
  function Classify(number: AsciiZone.Numbers, frame: Buffer): Incoming {
    var r := FrameParser.ParseFrame(number, frame);
    if r.Success? then IncomingOf(r.value) else Unparseable
  }

  function Each<A, B>(f: A -> B, xs: seq<A>): (ys: seq<B>)
    ensures |ys| == |xs| && forall i :: 0 <= i < |xs| ==> ys[i] == f(xs[i])
  {
    seq(|xs|, i requires 0 <= i < |xs| => f(xs[i]))
  }

  lemma EachAppend<A, B>(f: A -> B, a: seq<A>, b: seq<A>)
    ensures Each(f, a + b) == Each(f, a) + Each(f, b)
  {}

  function Classifier(number: AsciiZone.Numbers): Buffer -> Incoming {
    frame => Classify(number, frame)
  }

  function ClassifyAll(number: AsciiZone.Numbers, frames: seq<Buffer>): seq<Incoming> {
    Each(Classifier(number), frames)
  }

  /** The receive actions of a chunk's frames. */
  function Receives(s: SocketId, incoming: seq<Incoming>, now: Time): seq<Action> {
    if incoming == [] then [] else [Receive(s, incoming[0], now)] + Receives(s, incoming[1..], now)
  }

  /** A socket can go on receiving. */
  lemma {:induction false} ReceivesRun(st: State, s: SocketId, incoming: seq<Incoming>, now: Time)
    requires s in st.conn.open
    ensures IsRun(st, Receives(s, incoming, now))
    ensures Last(st, Receives(s, incoming, now)).conn.open.Keys == st.conn.open.Keys
    ensures Last(st, Receives(s, incoming, now)).conn.known == st.conn.known
    decreases |incoming|
  {
    if incoming != [] {
      var a := Receive(s, incoming[0], now);
      ReceivesRun(Step(st, a), s, incoming[1..], now);
      RunCons(st, a, Receives(s, incoming[1..], now));
    }
  }

  // ------------------------------------------------------------------
  // Events of the gateway
  // ------------------------------------------------------------------

  datatype Event =
    | Opened(socket: SocketId)
    | Chunk(socket: SocketId, bytes: Buffer, now: Time)
    | Closed(socket: SocketId)
    | Settled(index: nat, outcome: Outcome)

  /** The connection model, and the splitter buffer of every open socket. */
  datatype GatewayState = GatewayState(server: State, buffers: map<SocketId, Buffer>)

  const START := GatewayState(INITIAL, map[])

  /** What does not change: the number parser and the buffer limit. */
  datatype Setup = Setup(number: AsciiZone.Numbers, max: nat)

  ghost predicate Coherent(g: GatewayState) {
    g.buffers.Keys == g.server.conn.open.Keys && g.server.conn.open.Keys <= g.server.conn.known
  }

  ghost predicate Possible(g: GatewayState, e: Event) {
    match e
    case Opened(s) => Enabled(g.server, Open(s))
    case Chunk(s, _, _) => s in g.buffers && s in g.server.conn.open
    case Closed(s) => Enabled(g.server, Close(s))
    case Settled(i, outcome) => Enabled(g.server, Settle(i, outcome))
  }

  /** What a socket's frames of a chunk are classified as. */
  function IncomingIn(u: Setup, g: GatewayState, s: SocketId, bytes: Buffer): seq<Incoming>
    requires s in g.buffers
  {
    ClassifyAll(u.number, Emitted(PushStep(g.buffers[s], bytes, u.max).segments))
  }

  /** The steps of the connection model that an event amounts to. */
  ghost function ActionsOf(u: Setup, g: GatewayState, e: Event): seq<Action>
    requires Possible(g, e)
  {
    match e
    case Opened(s) => [Open(s)]
    case Chunk(s, bytes, now) => Receives(s, IncomingIn(u, g, s, bytes), now)
    case Closed(s) => [Close(s)]
    case Settled(i, outcome) => [Settle(i, outcome)]
  }

  function Buffers(u: Setup, g: GatewayState, e: Event): map<SocketId, Buffer> {
    match e
    case Opened(s) => g.buffers[s := []]
    case Chunk(s, bytes, _) =>
      if s in g.buffers then g.buffers[s := PushStep(g.buffers[s], bytes, u.max).pending] else g.buffers
    case Closed(s) => g.buffers - {s}
    case Settled(_, _) => g.buffers
  }

  lemma EventIsRun(u: Setup, g: GatewayState, e: Event)
    requires Possible(g, e)
    ensures IsRun(g.server, ActionsOf(u, g, e))
    ensures Coherent(g) ==> Coherent(GatewayState(Last(g.server, ActionsOf(u, g, e)), Buffers(u, g, e)))
  {
    match e
    case Chunk(s, bytes, now) => ReceivesRun(g.server, s, IncomingIn(u, g, s, bytes), now);
    case _ =>
      var a := ActionsOf(u, g, e)[0];
      assert [a] == [a] + [];
      RunCons(g.server, a, []);
  }

  ghost function Next(u: Setup, g: GatewayState, e: Event): GatewayState
    requires Possible(g, e)
  {
    EventIsRun(u, g, e);
    GatewayState(Last(g.server, ActionsOf(u, g, e)), Buffers(u, g, e))
  }

  /** The events, as the handlers of the server object take them. */
  lemma NextIs(u: Setup, g: GatewayState, e: Event)
    requires Possible(g, e)
    ensures e.Opened? ==> Next(u, g, e) == GatewayState(Step(g.server, Open(e.socket)), g.buffers[e.socket := []])
    ensures e.Closed? ==> Next(u, g, e) == GatewayState(Step(g.server, Close(e.socket)), g.buffers - {e.socket})
    ensures e.Settled? ==> Next(u, g, e) == GatewayState(Step(g.server, Settle(e.index, e.outcome)), g.buffers)
    ensures e.Chunk? ==>
              var p := PushStep(g.buffers[e.socket], e.bytes, u.max);
              var acts := Receives(e.socket, ClassifyAll(u.number, Emitted(p.segments)), e.now);
              && IsRun(g.server, acts)
              && Next(u, g, e) == GatewayState(Last(g.server, acts), g.buffers[e.socket := p.pending])
  {
    EventIsRun(u, g, e);
    if !e.Chunk? {
      var a := ActionsOf(u, g, e)[0];
      assert [a] == [a] + [];
      RunCons(g.server, a, []);
    }
  }

  ghost predicate IsHistory(u: Setup, g: GatewayState, es: seq<Event>)
    decreases es
  {
    es == [] || (Possible(g, es[0]) && IsHistory(u, Next(u, g, es[0]), es[1..]))
  }

  ghost function Reached(u: Setup, g: GatewayState, es: seq<Event>): GatewayState
    requires IsHistory(u, g, es)
    decreases es
  {
    if es == [] then g else Reached(u, Next(u, g, es[0]), es[1..])
  }

  /** All steps of a history. */
  ghost function StepsOf(u: Setup, g: GatewayState, es: seq<Event>): seq<Action>
    requires IsHistory(u, g, es)
    decreases es
  {
    if es == [] then [] else ActionsOf(u, g, es[0]) + StepsOf(u, Next(u, g, es[0]), es[1..])
  }

  lemma {:induction false} RunAppend(st: State, first: seq<Action>, rest: seq<Action>)
    requires IsRun(st, first) && IsRun(Last(st, first), rest)
    ensures IsRun(st, first + rest) && Last(st, first + rest) == Last(Last(st, first), rest)
    decreases first
  {
    if first == [] {
      assert first + rest == rest;
    } else {
      RunAppend(Step(st, first[0]), first[1..], rest);
      Uncons(first, rest);
    }
  }

  /** A history is a run of the connection model, so every theorem about runs covers it. */
  lemma {:induction false} HistoryIsRun(u: Setup, g: GatewayState, es: seq<Event>)
    requires IsHistory(u, g, es)
    ensures IsRun(g.server, StepsOf(u, g, es)) && Last(g.server, StepsOf(u, g, es)) == Reached(u, g, es).server
    decreases es
  {
    if es != [] {
      var next := Next(u, g, es[0]);
      EventIsRun(u, g, es[0]);
      HistoryIsRun(u, next, es[1..]);
      RunAppend(g.server, ActionsOf(u, g, es[0]), StepsOf(u, next, es[1..]));
    }
  }

  // ------------------------------------------------------------------
  // What one socket's chunks amount to
  // ------------------------------------------------------------------

  function ChunkIn(e: Event, s: SocketId): seq<Buffer> {
    if e.Chunk? && e.socket == s then [e.bytes] else []
  }

  function ChunksOf(es: seq<Event>, s: SocketId): seq<Buffer> {
    if es == [] then []
    else ChunkIn(es[0], s) + ChunksOf(es[1..], s)
  }

  /** What a socket's receive actions carry, in order. */
  function ReceivedOn(acts: seq<Action>, s: SocketId): seq<Incoming> {
    if acts == [] then [] else ReceivedBy(acts[0], s) + ReceivedOn(acts[1..], s)
  }

  function ReceivedBy(a: Action, s: SocketId): seq<Incoming> {
    if a.Receive? && a.socket == s then [a.incoming] else []
  }

  lemma {:induction false} ReceivedAppend(a: seq<Action>, b: seq<Action>, s: SocketId)
    ensures ReceivedOn(a + b, s) == ReceivedOn(a, s) + ReceivedOn(b, s)
  {
    if a == [] {
      assert a + b == b;
    } else {
      ReceivedAppend(a[1..], b, s);
      Uncons(a, b);
      Assoc(ReceivedBy(a[0], s), ReceivedOn(a[1..], s), ReceivedOn(b, s));
    }
  }

  lemma {:induction false} ReceivedOfReceives(t: SocketId, incoming: seq<Incoming>, now: Time, s: SocketId)
    ensures ReceivedOn(Receives(t, incoming, now), s) == if s == t then incoming else []
  {
    if incoming != [] {
      ReceivedOfReceives(t, incoming[1..], now, s);
      assert ([Receive(t, incoming[0], now)] + Receives(t, incoming[1..], now))[1..] == Receives(t, incoming[1..], now);
      assert incoming == [incoming[0]] + incoming[1..];
    }
  }

  /** What one event makes a socket receive. */
  function ReceivedIn(u: Setup, g: GatewayState, e: Event, s: SocketId): seq<Incoming> {
    if e.Chunk? && e.socket == s && s in g.buffers then IncomingIn(u, g, s, e.bytes) else []
  }

  lemma EventReceives(u: Setup, g: GatewayState, e: Event, s: SocketId)
    requires Possible(g, e)
    ensures ReceivedOn(ActionsOf(u, g, e), s) == ReceivedIn(u, g, e, s)
  {
    match e
    case Chunk(t, bytes, now) => ReceivedOfReceives(t, IncomingIn(u, g, t, bytes), now, s);
    case _ => assert ActionsOf(u, g, e)[1..] == [];
  }

  ghost predicate Gone(g: GatewayState, s: SocketId) {
    s in g.server.conn.known && s !in g.server.conn.open
  }

  lemma NextConnections(u: Setup, g: GatewayState, e: Event, s: SocketId)
    requires Possible(g, e) && Coherent(g)
    ensures Coherent(Next(u, g, e))
    ensures Gone(g, s) || (e.Closed? && e.socket == s) ==> Gone(Next(u, g, e), s)
  {
    EventIsRun(u, g, e);
    match e
    case Chunk(t, bytes, now) => ReceivesRun(g.server, t, IncomingIn(u, g, t, bytes), now);
    case _ =>
      var a := ActionsOf(u, g, e)[0];
      assert [a] == [a] + [];
      RunCons(g.server, a, []);
  }

  /** A closed socket delivers nothing more. */
  lemma {:induction false} GoneIsSilent(u: Setup, g: GatewayState, es: seq<Event>, s: SocketId)
    requires IsHistory(u, g, es) && Coherent(g) && Gone(g, s)
    ensures ChunksOf(es, s) == []
    decreases es
  {
    if es != [] {
      NextConnections(u, g, es[0], s);
      GoneIsSilent(u, Next(u, g, es[0]), es[1..], s);
    }
  }

  function BufferOf(g: GatewayState, s: SocketId): Buffer {
    if s in g.buffers then g.buffers[s] else []
  }

  lemma ChunkFeeds(u: Setup, g: GatewayState, e: Event, more: seq<Buffer>)
    requires e.Chunk? && e.socket in g.buffers
    ensures var p := PushStep(g.buffers[e.socket], e.bytes, u.max);
            ClassifyAll(u.number, Emitted(Feed(g.buffers[e.socket], [e.bytes] + more, u.max).segments)) ==
            IncomingIn(u, g, e.socket, e.bytes) + ClassifyAll(u.number, Emitted(Feed(p.pending, more, u.max).segments))
  {
    var p := PushStep(g.buffers[e.socket], e.bytes, u.max);
    var r := Feed(p.pending, more, u.max);
    assert ([e.bytes] + more)[1..] == more;
    EmittedAppend(p.segments, r.segments);
    EachAppend(Classifier(u.number), Emitted(p.segments), Emitted(r.segments));
  }

  lemma BufferStays(u: Setup, g: GatewayState, e: Event, s: SocketId)
    requires Possible(g, e) && Coherent(g) && ChunkIn(e, s) == [] && !(e.Closed? && e.socket == s)
    ensures BufferOf(Next(u, g, e), s) == BufferOf(g, s)
  {}

  lemma NothingFed(number: AsciiZone.Numbers, pending: Buffer, max: nat)
    ensures ClassifyAll(number, Emitted(Feed(pending, [], max).segments)) == []
  {}

  /** One event, seen from one socket; behind its close there are no more chunks. */
  lemma SocketStep(u: Setup, g: GatewayState, e: Event, s: SocketId, more: seq<Buffer>)
    requires Possible(g, e) && Coherent(g) && (e.Closed? && e.socket == s ==> more == [])
    ensures ClassifyAll(u.number, Emitted(Feed(BufferOf(g, s), ChunkIn(e, s) + more, u.max).segments)) ==
            ReceivedIn(u, g, e, s) +
            ClassifyAll(u.number, Emitted(Feed(BufferOf(Next(u, g, e), s), more, u.max).segments))
  {
    if e.Chunk? && e.socket == s {
      ChunkFeeds(u, g, e, more);
    } else {
      OtherStep(u, g, e, s, more);
    }
  }

  lemma OtherStep(u: Setup, g: GatewayState, e: Event, s: SocketId, more: seq<Buffer>)
    requires Possible(g, e) && Coherent(g) && (e.Closed? && e.socket == s ==> more == [])
    requires ChunkIn(e, s) == []
    ensures ClassifyAll(u.number, Emitted(Feed(BufferOf(g, s), ChunkIn(e, s) + more, u.max).segments)) ==
            ReceivedIn(u, g, e, s) +
            ClassifyAll(u.number, Emitted(Feed(BufferOf(Next(u, g, e), s), more, u.max).segments))
  {
    var next := BufferOf(Next(u, g, e), s);
    var got := ClassifyAll(u.number, Emitted(Feed(next, more, u.max).segments));
    assert ChunkIn(e, s) + more == more && [] + got == got;
    if e.Closed? && e.socket == s {
      NothingFed(u.number, BufferOf(g, s), u.max);
      NothingFed(u.number, next, u.max);
    } else {
      BufferStays(u, g, e, s);
    }
  }

  /**
   * Whatever the other sockets do, and however saves settle in between, what a socket receives
   * is what its own splitter cuts from its own chunks.
   */
  lemma {:induction false} SocketReceives(u: Setup, g: GatewayState, es: seq<Event>, s: SocketId)
    requires IsHistory(u, g, es) && Coherent(g)
    ensures ReceivedOn(StepsOf(u, g, es), s) ==
            ClassifyAll(u.number, Emitted(Feed(BufferOf(g, s), ChunksOf(es, s), u.max).segments))
    decreases es
  {
    if es != [] {
      var e, next, rest := es[0], Next(u, g, es[0]), es[1..];
      NextConnections(u, g, e, s);
      if e.Closed? && e.socket == s {
        GoneIsSilent(u, next, rest, s);
      }
      SocketReceives(u, next, rest, s);
      SocketStep(u, g, e, s, ChunksOf(rest, s));
      EventReceives(u, g, e, s);
      ReceivedAppend(ActionsOf(u, g, e), StepsOf(u, next, rest), s);
    }
  }

  // ------------------------------------------------------------------
  // From messages to acknowledgements
  // ------------------------------------------------------------------

  /** The heartbeat acknowledgements of one socket, in order. */
  function ShbdsOn(writes: seq<Write>, s: SocketId): seq<Write> {
    if writes == [] then []
    else (if writes[0].Shbd? && writes[0].socket == s then [writes[0]] else []) + ShbdsOn(writes[1..], s)
  }

  function BeatsIn(s: SocketId, incoming: seq<Incoming>): seq<Write> {
    if incoming == [] then []
    else (if incoming[0].Parsed? && incoming[0].kind.HeartbeatFrame? then [Shbd(s, incoming[0].serial)] else []) +
         BeatsIn(s, incoming[1..])
  }

  function ReportsIn(incoming: seq<Incoming>, serial: nat): nat {
    if incoming == [] then 0
    else (if incoming[0].Parsed? && incoming[0].kind.ReportFrame? && incoming[0].serial == serial then 1 else 0) +
         ReportsIn(incoming[1..], serial)
  }

  lemma {:induction false} BeatsOnSocket(acts: seq<Action>, s: SocketId)
    ensures ShbdsOn(BeatsReceived(acts), s) == BeatsIn(s, ReceivedOn(acts, s))
  {
    if acts != [] {
      var a, rest := acts[0], acts[1..];
      BeatsOnSocket(rest, s);
      if BeatIn(a) != [] {
        assert (BeatIn(a) + BeatsReceived(rest))[1..] == BeatsReceived(rest);
      } else {
        assert BeatIn(a) + BeatsReceived(rest) == BeatsReceived(rest);
      }
      if ReceivedBy(a, s) != [] {
        assert (ReceivedBy(a, s) + ReceivedOn(rest, s))[1..] == ReceivedOn(rest, s);
      } else {
        assert ReceivedBy(a, s) + ReceivedOn(rest, s) == ReceivedOn(rest, s);
      }
    }
  }

  lemma {:induction false} ReportsOnSocket(acts: seq<Action>, s: SocketId, serial: nat)
    ensures ReportsReceived(acts, s, serial) == ReportsIn(ReceivedOn(acts, s), serial)
  {
    if acts != [] {
      var a, rest := acts[0], acts[1..];
      ReportsOnSocket(rest, s, serial);
      if ReceivedBy(a, s) != [] {
        assert (ReceivedBy(a, s) + ReceivedOn(rest, s))[1..] == ReceivedOn(rest, s);
      } else {
        assert ReceivedBy(a, s) + ReceivedOn(rest, s) == ReceivedOn(rest, s);
      }
    }
  }

  /** The messages as the server should receive them. */
  function MessagesIn(number: AsciiZone.Numbers, ms: seq<FrameParser.Message>): (r: seq<Incoming>)
    ensures |r| == |ms| && forall i :: 0 <= i < |ms| ==> r[i] == IncomingOf(FrameParser.ParsedMessage(number, ms[i]))
  {
    seq(|ms|, i requires 0 <= i < |ms| => IncomingOf(FrameParser.ParsedMessage(number, ms[i])))
  }

  /**
   * What the server makes of a message, by the bytes of its head token; a report message holds a report
   * exactly when its zone has the 8-byte header, and no other message holds one.
   */
  lemma MessageReceived(number: AsciiZone.Numbers, m: FrameParser.Message)
    requires FrameParser.Buildable(m)
    ensures var r := IncomingOf(FrameParser.ParsedMessage(number, m));
            && r.imei == m.imei && r.serial == m.serialNumber
            && (r.kind == ReportFrame <==> FrameParser.IsReportHead(m.head))
            && (r.kind == HeartbeatFrame <==> FrameParser.IsHeartbeatHead(m.head))
            && (r.hasReport <==> FrameParser.IsReportHead(m.head) && |m.zone| >= 8)
  {
    var kind := FrameParser.ResolveKind(FrameParser.AsciiString(m.head));
    FrameParser.KindOfHead(m.head);
    if FrameParser.IsReport(kind) {
      DeviceStore.SavedExactly(number, kind, m.zone, FrameParser.ParsedMessage(number, m), 0);
    }
  }

  /**
   * What the server makes of any frame, by its bytes, whatever Length it declares and with or without a
   * terminator; a frame that the parser throws on is received as unparseable.
   */
  lemma FrameReceived(number: AsciiZone.Numbers, f: FrameContents.Parts)
    requires FrameContents.IsFrame(f)
    ensures var r := Classify(number, FrameContents.FrameBytes(f));
            && r.Parsed?
            && FrameContents.DigitsOf(r.imei, f.imei)
            && r.serial == 256 * f.serial[0] as int + f.serial[1] as int
            && (r.kind == ReportFrame <==> FrameParser.IsReportHead(f.head))
            && (r.kind == HeartbeatFrame <==> FrameParser.IsHeartbeatHead(f.head))
            && (r.hasReport <==> FrameParser.IsReportHead(f.head) && |f.zone| >= 8)
  {
    var p := FrameContents.HeaderOnWire(number, f);
    FrameParser.KindOfHead(f.head);
    if FrameParser.IsReport(p.kind) {
      DeviceStore.SavedExactly(number, p.kind, f.zone, p, 0);
    }
  }

  lemma UnparseableExactly(number: AsciiZone.Numbers, frame: Buffer)
    ensures Classify(number, frame).Unparseable? <==>
            || frame == []
            || (forall i :: 0 <= i < |frame| && i < 8 ==> frame[i] != 0x3A)
            || FrameParser.BodyEnd(frame) - (IndexOf(frame, 0x3A, 0) + 1) < 20
  {
    FrameParser.ThrowsExactly(number, frame);
  }

  /** One +SHBD for each +HBD message, with its serial number, in order. */
  function BeatsOf(s: SocketId, ms: seq<FrameParser.Message>): seq<Write> {
    if ms == [] then []
    else
      (if FrameParser.IsHeartbeatHead(ms[0].head) then [Shbd(s, ms[0].serialNumber)] else []) + BeatsOf(s, ms[1..])
  }

  /** The number of +RPT and -RPT messages with this serial number. */
  function ReportsOf(ms: seq<FrameParser.Message>, serial: nat): nat {
    if ms == [] then 0
    else
      (if FrameParser.IsReportHead(ms[0].head) && ms[0].serialNumber == serial then 1 else 0) +
      ReportsOf(ms[1..], serial)
  }

  lemma {:induction false} MessagesCounted(number: AsciiZone.Numbers, s: SocketId, ms: seq<FrameParser.Message>,
                                           serial: nat)
    requires FrameParser.AllBuildable(ms)
    ensures BeatsIn(s, MessagesIn(number, ms)) == BeatsOf(s, ms)
    ensures ReportsIn(MessagesIn(number, ms), serial) == ReportsOf(ms, serial)
  {
    if ms != [] {
      assert ms[0] in ms;
      MessageReceived(number, ms[0]);
      assert MessagesIn(number, ms)[1..] == MessagesIn(number, ms[1..]);
      MessagesCounted(number, s, ms[1..], serial);
    }
  }

  ghost predicate Deliverable(ms: seq<FrameParser.Message>, max: nat) {
    && FrameParser.AllBuildable(ms)
    && forall m :: m in ms ==> FrameParser.Unambiguous(m) && |m.head| + 2 + FrameParser.ActualLength(m) <= max
  }

  lemma MessagesArrive(u: Setup, ms: seq<FrameParser.Message>, chunks: seq<Buffer>)
    requires Deliverable(ms, u.max) && Flatten(chunks) == Flatten(FrameParser.BuildAll(ms))
    ensures ClassifyAll(u.number, Emitted(Feed([], chunks, u.max).segments)) == MessagesIn(u.number, ms)
  {
    FrameParser.EndToEnd(u.number, ms, chunks, u.max);
  }

  /**
   * A socket's messages have arrived: the server has received exactly these from it, in order, has
   * answered each +HBD message among them with one +SHBD of its serial number, in order, and nothing
   * else with a +SHBD; and for every serial number the +RPT and -RPT messages among them are the saves
   * in flight and the +SACK writes together.
   */
  ghost predicate Delivered(u: Setup, es: seq<Event>, s: SocketId, ms: seq<FrameParser.Message>)
    requires IsHistory(u, START, es)
  {
    var k := Reached(u, START, es).server.acks;
    && ReceivedOn(StepsOf(u, START, es), s) == MessagesIn(u.number, ms)
    && ShbdsOn(Shbds(k.writes), s) == BeatsOf(s, ms)
    && forall serial: nat ::
         SavesFor(k.inFlight, s, serial) + SacksFor(k.writes, s, serial) == ReportsOf(ms, serial)
  }

  /**
   * The gateway, end to end. In any history, whatever the other sockets do and however saves
   * settle: if the chunks of a socket make up the frames of some messages, cut anywhere, these
   * messages are delivered.
   */
  lemma GatewayDelivers(u: Setup, es: seq<Event>, s: SocketId, ms: seq<FrameParser.Message>)
    requires IsHistory(u, START, es) && FrameParser.AllBuildable(ms)
    ensures Deliverable(ms, u.max) && Flatten(ChunksOf(es, s)) == Flatten(FrameParser.BuildAll(ms)) ==>
              Delivered(u, es, s, ms)
  {
    if Deliverable(ms, u.max) && Flatten(ChunksOf(es, s)) == Flatten(FrameParser.BuildAll(ms)) {
      SocketReceives(u, START, es, s);
      MessagesArrive(u, ms, ChunksOf(es, s));
      ReceivedIsDelivered(u, es, s, ms);
    }
  }

  lemma ReceivedIsDelivered(u: Setup, es: seq<Event>, s: SocketId, ms: seq<FrameParser.Message>)
    requires IsHistory(u, START, es) && FrameParser.AllBuildable(ms)
    requires ReceivedOn(StepsOf(u, START, es), s) == MessagesIn(u.number, ms)
    ensures Delivered(u, es, s, ms)
  {
    var acts, k := StepsOf(u, START, es), Reached(u, START, es).server.acks;
    HistoryIsRun(u, START, es);
    WritesMirrorRun(acts);
    BeatsOnSocket(acts, s);
    MessagesCounted(u.number, s, ms, 0);
    forall serial: nat
      ensures SavesFor(k.inFlight, s, serial) + SacksFor(k.writes, s, serial) == ReportsOf(ms, serial)
    {
      AcksConserved(acts, s, serial);
      ReportsOnSocket(acts, s, serial);
      MessagesCounted(u.number, s, ms, serial);
    }
  }
}
