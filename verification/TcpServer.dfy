/** The server object: its handlers, proved to take the steps of the gateway model. */
module TcpServer {
  import opened Wrappers
  import opened Bytes
  import opened FrameSplitter
  import opened Server
  import opened Gateway
  import AsciiZone
  import DeviceStore
  import FrameParser

  /**
   * A call of `saveReport` that has not settled, with the report it found in its frame, if any.
   * `upserted` says that its first statement has been executed.
   */
  datatype PendingSave = PendingSave(socket: SocketId, imei: Imei, serial: nat, report: Option<DeviceStore.Report>,
                                     upserted: bool)

  function SaveOf(p: PendingSave): Save {
    Save(p.socket, p.imei, p.serial, p.report.Some?)
  }

  /** `saveReport` called on a frame. */
  function Started(s: SocketId, parsed: FrameParser.ParsedFrame, now: Time): PendingSave {
    PendingSave(s, parsed.header.imei, parsed.header.serialNumber, DeviceStore.ReportIn(parsed, now), false)
  }

  function SavesOf(ps: seq<PendingSave>): seq<Save> {
    Each(SaveOf, ps)
  }

  lemma SavesOfRemoved(ps: seq<PendingSave>, i: nat)
    requires i < |ps|
    ensures SavesOf(RemoveAt(ps, i)) == RemoveAt(SavesOf(ps), i)
  {}

  lemma RemovedFrom(ps: seq<PendingSave>, i: nat)
    requires i < |ps|
    ensures forall p :: p in RemoveAt(ps, i) ==> p in ps
  {}

  /** The report row of a pending save can be inserted: its own upsert has been executed. */
  ghost predicate Prepared(writes: seq<DeviceStore.Write>, p: PendingSave) {
    p.upserted ==> p.report.Some? && DeviceStore.Upserted(writes, p.report.value)
  }

  lemma UpsertedStays(writes: seq<DeviceStore.Write>, more: seq<DeviceStore.Write>, r: DeviceStore.Report)
    requires DeviceStore.Upserted(writes, r) && writes <= more
    ensures DeviceStore.Upserted(more, r)
  {
    var k :| 0 <= k < |writes| && writes[k].Upsert? && writes[k].imei == r.imei && writes[k].origin == Some(r);
    assert more[k] == writes[k];
  }

  class TrackerTcpServer {
    const registry: ConnectionRegistry
    const persistence: DeviceStore.PersistenceService
    const number: AsciiZone.Numbers
    const maxBufferBytes: nat
    var pending: seq<PendingSave>
    /** The open connections: the IMEI of each, and what its splitter holds. */
    ghost var imeis: map<SocketId, Option<Imei>>
    ghost var buffers: map<SocketId, Buffer>
    ghost var known: set<SocketId>
    ghost var events: seq<ConnectionEvent>
    ghost var published: seq<Save>
    ghost var written: seq<Write>

    /** Handlers say which parts they keep; what they do not modify, they keep anyway. */
    ghost predicate Valid()
      reads this, registry, persistence
    {
      registry.Valid() && persistence.Valid() && SavesPrepared()
    }

    ghost predicate SavesPrepared()
      reads this`pending, persistence`writes
    {
      forall p :: p in pending ==> Prepared(persistence.writes, p)
    }

    ghost function Now(): State
      reads this`known, this`imeis, this`events, this`pending, this`published, this`written, registry
    {
      State(Connections(known, imeis, registry.sockets, registry.info, events),
            Acks(SavesOf(pending), published, written))
    }

    constructor (number: AsciiZone.Numbers, maxBufferBytes: nat)
      ensures Valid() && Now() == INITIAL && buffers == map[]
      ensures this.number == number && this.maxBufferBytes == maxBufferBytes
      ensures fresh(registry) && fresh(persistence) && persistence.writes == []
    {
      this.number, this.maxBufferBytes := number, maxBufferBytes;
      registry := new ConnectionRegistry();
      persistence := new DeviceStore.PersistenceService();
      pending, imeis, buffers := [], map[], map[];
      known, events, published, written := {}, [], [], [];
    }

    method HandleConnection(s: SocketId) returns (c: ClientConnection)
      requires Enabled(Now(), Open(s))
      modifies this`imeis, this`buffers, this`known
      ensures fresh(c) && fresh(c.splitter) && c.server == this && c.socket == s && c.Valid()
      ensures Now() == Step(old(Now()), Open(s))
      ensures buffers == old(buffers)[s := []]
    {
      c := new ClientConnection(this, s);
      imeis := imeis[s := None];
      buffers := buffers[s := []];
      known := known + {s};
    }

    /** The save is started; what follows it are `ExecuteUpsert` and `SettleSave`, any time later. */
    method HandleReportFrame(s: SocketId, parsed: FrameParser.ParsedFrame, now: Time)
      modifies this`pending
      ensures pending ==
              old(pending) +
              [PendingSave(s, parsed.header.imei, parsed.header.serialNumber, DeviceStore.ReportIn(parsed, now), false)]
      ensures SavesOf(pending) ==
              old(SavesOf(pending)) +
              [Save(s, parsed.header.imei, parsed.header.serialNumber, DeviceStore.HasReport(parsed))]
    {
      var p := Started(s, parsed, now);
      EachAppend(SaveOf, pending, [p]);
      pending := pending + [p];
    }

    method HandleHeartbeatFrame(s: SocketId, imei: Imei, serial: nat, now: Time)
      requires registry.Valid()
      modifies this`written, registry`info
      ensures registry.Valid() && registry.info == Touched(old(registry.info), imei, now)
      ensures written == old(written) + [Shbd(s, serial)]
    {
      registry.Touch(imei, now);
      written := written + [Shbd(s, serial)];
    }

    /** The upsert of a pending save is executed. */
    method ExecuteUpsert(i: nat)
      requires persistence.Valid() && SavesPrepared() && i < |pending| && pending[i].report.Some? &&
               !pending[i].upserted
      modifies this`pending, persistence
      ensures persistence.Valid() && SavesPrepared() && Now() == old(Now())
      ensures |pending| == old(|pending|) && pending[i] == old(pending[i]).(upserted := true)
      ensures old(persistence.writes) <= persistence.writes
    {
      var p := pending[i];
      ghost var before := persistence.writes;
      persistence.UpsertReport(p.report.value);
      KeepPrepared(pending, before, persistence.writes);
      pending := pending[i := p.(upserted := true)];
      assert SavesOf(pending) == old(SavesOf(pending));
    }

    /**
     * The `then`/`catch`/`finally` of a save: it stores its report if both statements succeeded,
     * is rejected if one of them was, and resolves to `null` for a frame without a report.
     */
    method SettleSave(i: nat, succeeds: bool) returns (outcome: Outcome)
      requires persistence.Valid() && SavesPrepared() && i < |pending|
      requires succeeds && pending[i].report.Some? ==> pending[i].upserted
      modifies this`pending, this`published, this`written, persistence
      ensures persistence.Valid() && SavesPrepared()
      ensures Enabled(old(Now()), Settle(i, outcome))
      ensures Now() == Step(old(Now()), Settle(i, outcome))
      ensures outcome.Stored? <==> old(pending)[i].report.Some? && succeeds
      ensures outcome.Stored? ==>
                persistence.writes == old(persistence.writes) + [DeviceStore.Insert(old(pending)[i].report.value)]
      ensures !outcome.Stored? ==> persistence.writes == old(persistence.writes)
    {
      assert pending[i] in pending;
      outcome := InsertSaved(pending[i], succeeds);
      KeepPrepared(pending, old(persistence.writes), persistence.writes);
      RemovedFrom(pending, i);
      FinishSave(i, outcome);
    }

    /** The event of a stored report, the acknowledgement, and the end of the save. */
    method FinishSave(i: nat, outcome: Outcome)
      requires i < |pending| && CanSettle(SaveOf(pending[i]), outcome)
      modifies this`pending, this`published, this`written
      ensures pending == RemoveAt(old(pending), i)
      ensures Enabled(old(Now()), Settle(i, outcome))
      ensures Now() == Step(old(Now()), Settle(i, outcome))
    {
      var p := pending[i];
      if outcome.Stored? {
        published := published + [SaveOf(p)];
      }
      SavesOfRemoved(pending, i);
      pending := RemoveAt(pending, i);
      written := written + [Sack(p.socket, p.serial)];
    }

    /** The insert of a save, if it comes to that. */
    method InsertSaved(p: PendingSave, succeeds: bool) returns (outcome: Outcome)
      requires persistence.Valid() && Prepared(persistence.writes, p)
      requires succeeds && p.report.Some? ==> p.upserted
      modifies persistence
      ensures persistence.Valid() && CanSettle(SaveOf(p), outcome)
      ensures outcome.Stored? <==> p.report.Some? && succeeds
      ensures persistence.writes ==
              old(persistence.writes) + if outcome.Stored? then [DeviceStore.Insert(p.report.value)] else []
      ensures old(persistence.writes) <= persistence.writes
    {
      if p.report.None? || !succeeds {
        assert persistence.writes + [] == persistence.writes;
        return if p.report.None? then NotAReport else Rejected;
      }
      persistence.InsertReport(p.report.value);
      outcome := Stored;
    }
  }

  /** What `handleConnection` closes over: the socket, its splitter and the IMEI it is identified as. */
  class ClientConnection {
    const server: TrackerTcpServer
    const socket: SocketId
    const splitter: TrackerFrameSplitter
    var imei: Option<Imei>

    ghost predicate Valid()
      reads this, splitter, server`imeis, server`buffers
    {
      && Identified()
      && splitter.Valid() && splitter.maxBufferBytes == server.maxBufferBytes
      && socket in server.buffers && server.buffers[socket] == splitter.buffer
    }

    ghost predicate Identified()
      reads this, server`imeis
    {
      socket in server.imeis && server.imeis[socket] == imei
    }

    constructor (server: TrackerTcpServer, s: SocketId)
      ensures this.server == server && socket == s && imei == None
      ensures fresh(splitter) && splitter.Valid() && splitter.buffer == [] &&
              splitter.maxBufferBytes == server.maxBufferBytes
    {
      this.server, socket, imei := server, s, None;
      splitter := new TrackerFrameSplitter(server.maxBufferBytes);
    }

    method RegisterDevice(resolvedImei: Imei, now: Time)
      requires server.registry.Valid() && Identified()
      modifies this`imei, server`imeis, server`events, server.registry
      ensures server.registry.Valid() && Identified()
      ensures server.Now() ==
              old(server.Now()).(conn := Server.RegisterDevice(old(server.Now()).conn, socket, resolvedImei, now))
    {
      if imei == Some(resolvedImei) {
        server.registry.Touch(resolvedImei, now);
        return;
      }
      imei := Some(resolvedImei);
      server.imeis := server.imeis[socket := imei];
      server.registry.Register(resolvedImei, socket, now);
      server.events := server.events + [Connected(resolvedImei, socket)];
    }

    method HandleFrame(frame: Buffer, now: Time)
      requires server.registry.Valid() && Identified() && server.SavesPrepared()
      modifies this`imei, server`imeis, server`events, server`pending, server`written, server.registry
      ensures server.registry.Valid() && Identified() && server.SavesPrepared()
      ensures server.Now() == Step(old(server.Now()), Receive(socket, Classify(server.number, frame), now))
    {
      var parsed := FrameParser.Parse(server.number, frame);
      if parsed.Success? {
        HandleParsed(parsed.value, now);
      }
    }

    method HandleParsed(parsed: FrameParser.ParsedFrame, now: Time)
      requires server.registry.Valid() && Identified() && server.SavesPrepared()
      modifies this`imei, server`imeis, server`events, server`pending, server`written, server.registry
      ensures server.registry.Valid() && Identified() && server.SavesPrepared()
      ensures server.Now() == Step(old(server.Now()), Receive(socket, IncomingOf(parsed), now))
    {
      var header := parsed.header;
      RegisterDevice(header.imei, now);
      if FrameParser.IsReport(parsed.kind) {
        server.HandleReportFrame(socket, parsed, now);
      } else if FrameParser.IsHeartbeat(parsed.kind) {
        server.HandleHeartbeatFrame(socket, header.imei, header.serialNumber, now);
      }
    }

    /** The data handler: a chunk goes through the connection's own splitter, its frames are handled in order. */
    method HandleData(chunk: Buffer, now: Time) returns (frames: seq<Buffer>)
      requires Valid() && server.registry.Valid() && server.SavesPrepared()
      modifies this`imei, splitter, server`buffers, server`imeis, server`events, server`pending, server`written,
               server.registry
      ensures Valid() && server.registry.Valid() && server.SavesPrepared()
      ensures frames == Emitted(PushStep(old(server.buffers[socket]), chunk, server.maxBufferBytes).segments)
      ensures server.buffers ==
              old(server.buffers)[socket := PushStep(old(server.buffers[socket]), chunk, server.maxBufferBytes).pending]
      ensures IsRun(old(server.Now()), Receives(socket, ClassifyAll(server.number, frames), now))
      ensures server.Now() == Last(old(server.Now()), Receives(socket, ClassifyAll(server.number, frames), now))
    {
      var overflowed;
      frames, overflowed := splitter.Push(chunk);
      server.buffers := server.buffers[socket := splitter.buffer];
      HandleFrames(frames, now);
    }

    method HandleFrames(frames: seq<Buffer>, now: Time)
      requires server.registry.Valid() && Identified() && server.SavesPrepared()
      modifies this`imei, server`imeis, server`events, server`pending, server`written, server.registry
      ensures server.registry.Valid() && Identified() && server.SavesPrepared()
      ensures IsRun(old(server.Now()), Receives(socket, ClassifyAll(server.number, frames), now))
      ensures server.Now() == Last(old(server.Now()), Receives(socket, ClassifyAll(server.number, frames), now))
    {
      ghost var start := server.Now();
      assert ClassifyAll(server.number, frames[..0]) == [];
      for i := 0 to |frames|
        invariant server.registry.Valid() && Identified() && server.SavesPrepared()
        invariant IsRun(start, Receives(socket, ClassifyAll(server.number, frames[..i]), now))
        invariant server.Now() == Last(start, Receives(socket, ClassifyAll(server.number, frames[..i]), now))
      {
        OneMoreFrame(server.number, start, socket, frames, i, now);
        HandleFrame(frames[i], now);
      }
      assert frames[..|frames|] == frames;
    }

    method HandleClose()
      requires Valid() && server.registry.Valid()
      modifies server`imeis, server`buffers, server`events, server.registry
      ensures server.registry.Valid() && server.Now() == Step(old(server.Now()), Close(socket))
      ensures server.buffers == old(server.buffers) - {socket}
    {
      server.imeis := server.imeis - {socket};
      server.buffers := server.buffers - {socket};
      match imei
      case None =>
      case Some(i) =>
        server.registry.Unregister(i);
        server.events := server.events + [Disconnected(i, socket)];
    }
  }

  lemma KeepPrepared(ps: seq<PendingSave>, writes: seq<DeviceStore.Write>, more: seq<DeviceStore.Write>)
    requires writes <= more && forall p :: p in ps ==> Prepared(writes, p)
    ensures forall p :: p in ps ==> Prepared(more, p)
  {
    forall p | p in ps
      ensures Prepared(more, p)
    {
      if p.upserted {
        UpsertedStays(writes, more, p.report.value);
      }
    }
  }

  lemma {:induction false} ReceivesSnoc(s: SocketId, incoming: seq<Incoming>, x: Incoming, now: Time)
    ensures Receives(s, incoming + [x], now) == Receives(s, incoming, now) + [Receive(s, x, now)]
  {
    if incoming == [] {
      assert [x][1..] == [] && incoming + [x] == [x];
    } else {
      ReceivesSnoc(s, incoming[1..], x, now);
      Uncons(incoming, [x]);
    }
  }

  lemma OneMoreFrame(number: AsciiZone.Numbers, st: State, s: SocketId, frames: seq<Buffer>, i: nat, now: Time)
    requires i < |frames| && IsRun(st, Receives(s, ClassifyAll(number, frames[..i]), now))
    requires s in Last(st, Receives(s, ClassifyAll(number, frames[..i]), now)).conn.open
    ensures var acts := Receives(s, ClassifyAll(number, frames[..i]), now);
            var a := Receive(s, Classify(number, frames[i]), now);
            && Receives(s, ClassifyAll(number, frames[..i + 1]), now) == acts + [a]
            && IsRun(st, acts + [a]) && Last(st, acts + [a]) == Step(Last(st, acts), a)
  {
    var acts, a := Receives(s, ClassifyAll(number, frames[..i]), now), Receive(s, Classify(number, frames[i]), now);
    assert frames[..i + 1] == frames[..i] + [frames[i]];
    EachAppend(Classifier(number), frames[..i], [frames[i]]);
    assert Each(Classifier(number), [frames[i]]) == [Classify(number, frames[i])];
    ReceivesSnoc(s, ClassifyAll(number, frames[..i]), Classify(number, frames[i]), now);
    RunSnoc(st, acts, a);
  }
}
