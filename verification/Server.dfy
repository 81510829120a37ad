/** The connection registry, and the server's connections, frames and acknowledgements as steps. */
module Server {
  import opened Bytes
  import opened Wrappers

  type SocketId = nat
  type Imei = string
  type Time = nat

  datatype ConnectionInfo = ConnectionInfo(imei: Imei, remote: SocketId, connectedAt: Time, lastActivityAt: Time)

  /** `Map.get(imei)?.connectedAt ?? now`. */
  function ConnectedAt(info: map<Imei, ConnectionInfo>, imei: Imei, now: Time): Time {
    if imei in info then info[imei].connectedAt else now
  }

  class ConnectionRegistry {
    var sockets: map<Imei, SocketId>
    var info: map<Imei, ConnectionInfo>

    ghost predicate Valid()
      reads this
    {
      sockets.Keys == info.Keys
    }

    constructor ()
      ensures Valid() && sockets == map[] && info == map[]
    {
      sockets, info := map[], map[];
    }

    method Register(imei: Imei, socket: SocketId, now: Time)
      requires Valid()
      modifies this
      ensures Valid()
      ensures sockets == old(sockets)[imei := socket]
      ensures info == old(info)[imei := ConnectionInfo(imei, socket, ConnectedAt(old(info), imei, now), now)]
    {
      sockets := sockets[imei := socket];
      var connectedAt := ConnectedAt(info, imei, now);
      info := info[imei := ConnectionInfo(imei, socket, connectedAt, now)];
    }

    method Touch(imei: Imei, now: Time)
      requires Valid()
      modifies this`info
      ensures Valid()
      ensures info == Touched(old(info), imei, now)
    {
      if imei in info {
        info := info[imei := info[imei].(lastActivityAt := now)];
      }
    }

    method Unregister(imei: Imei)
      requires Valid()
      modifies this
      ensures Valid()
      ensures sockets == old(sockets) - {imei} && info == old(info) - {imei}
    {
      sockets := sockets - {imei};
      info := info - {imei};
    }

    predicate IsConnected(imei: Imei): (connected: bool)
      reads this
      ensures connected <==> imei in sockets.Keys
    {
      imei in sockets
    }
  }

  function Touched(info: map<Imei, ConnectionInfo>, imei: Imei, now: Time): (r: map<Imei, ConnectionInfo>)
    ensures r.Keys == info.Keys
  {
    if imei in info then info[imei := info[imei].(lastActivityAt := now)] else info
  }

  // ------------------------------------------------------------------
  // Steps
  // ------------------------------------------------------------------

  datatype FrameKind = ReportFrame | HeartbeatFrame | OtherFrame

  /**
   * A delimited frame as the server sees it: unparseable, or a kind, an IMEI, a serial
   * number and whether it decoded to a report.
   */
  datatype Incoming = Unparseable | Parsed(kind: FrameKind, imei: Imei, serial: nat, hasReport: bool)

  datatype Save = Save(socket: SocketId, imei: Imei, serial: nat, hasReport: bool)

  /** How a save settles: a stored report, `null`, or a rejection. */
  datatype Outcome = Stored | NotAReport | Rejected

  /** `saveReport` resolves to `null`, without touching the database, exactly for a frame without a report. */
  predicate CanSettle(save: Save, outcome: Outcome) {
    outcome.NotAReport? <==> !save.hasReport
  }

  datatype Write = Sack(socket: SocketId, serial: nat) | Shbd(socket: SocketId, serial: nat)

  datatype ConnectionEvent = Connected(imei: Imei, socket: SocketId) | Disconnected(imei: Imei, socket: SocketId)

  datatype Action =
    | Open(socket: SocketId)
    | Receive(socket: SocketId, incoming: Incoming, now: Time)
    | Close(socket: SocketId)
    | Settle(index: nat, outcome: Outcome)

  /** `open` maps every open socket to the IMEI it is identified as, if any; `known` holds all sockets ever opened. */
  datatype Connections = Connections(
    known: set<SocketId>,
    open: map<SocketId, Option<Imei>>,
    sockets: map<Imei, SocketId>,
    info: map<Imei, ConnectionInfo>,
    events: seq<ConnectionEvent>)

  /** The saves that have not settled, the REPORT_RECEIVED events, and what has been written to sockets. */
  datatype Acks = Acks(inFlight: seq<Save>, published: seq<Save>, writes: seq<Write>)

  datatype State = State(conn: Connections, acks: Acks)

  const INITIAL := State(Connections({}, map[], map[], map[], []), Acks([], [], []))

  predicate Enabled(st: State, a: Action) {
    match a
    case Open(s) => s !in st.conn.known
    case Receive(s, _, _) => s in st.conn.open
    case Close(s) => s in st.conn.open
    case Settle(i, outcome) => i < |st.acks.inFlight| && CanSettle(st.acks.inFlight[i], outcome)
  }

  /** `registerDevice`. */
  function RegisterDevice(c: Connections, s: SocketId, imei: Imei, now: Time): Connections
    requires s in c.open
  {
    if c.open[s] == Some(imei) then c.(info := Touched(c.info, imei, now))
    else c.(open := c.open[s := Some(imei)],
            sockets := c.sockets[imei := s],
            info := c.info[imei := ConnectionInfo(imei, s, ConnectedAt(c.info, imei, now), now)],
            events := c.events + [Connected(imei, s)])
  }

  /** The close handler: it unregisters by IMEI, not by socket. */
  function Disconnect(c: Connections, s: SocketId): Connections
    requires s in c.open
  {
    match c.open[s]
    case None => c.(open := c.open - {s})
    case Some(imei) =>
      c.(open := c.open - {s}, sockets := c.sockets - {imei}, info := c.info - {imei},
         events := c.events + [Disconnected(imei, s)])
  }

  function ConnStep(c: Connections, a: Action): Connections
    requires a.Receive? || a.Close? ==> a.socket in c.open
  {
    match a
    case Open(s) => c.(known := c.known + {s}, open := c.open[s := None])
    case Receive(s, Parsed(kind, imei, _, _), now) =>
      var registered := RegisterDevice(c, s, imei, now);
      if kind.HeartbeatFrame? then registered.(info := Touched(registered.info, imei, now)) else registered
    case Receive(_, Unparseable, _) => c
    case Close(s) => Disconnect(c, s)
    case Settle(_, _) => c
  }

  function RemoveAt<T>(xs: seq<T>, i: nat): seq<T>
    requires i < |xs|
  {
    xs[..i] + xs[i + 1..]
  }

  function AckStep(k: Acks, a: Action): Acks
    requires a.Settle? ==> a.index < |k.inFlight|
  {
    match a
    case Receive(s, Parsed(ReportFrame, imei, serial, hasReport), _) =>
      k.(inFlight := k.inFlight + [Save(s, imei, serial, hasReport)])
    case Receive(s, Parsed(HeartbeatFrame, imei, serial, _), _) => k.(writes := k.writes + [Shbd(s, serial)])
    case Settle(i, outcome) =>
      var save := k.inFlight[i];
      Acks(RemoveAt(k.inFlight, i), if outcome.Stored? then k.published + [save] else k.published,
           k.writes + [Sack(save.socket, save.serial)])
    case _ => k
  }

  function Step(st: State, a: Action): State
    requires Enabled(st, a)
  {
    State(ConnStep(st.conn, a), AckStep(st.acks, a))
  }

  // ------------------------------------------------------------------
  // Runs
  // ------------------------------------------------------------------

  ghost predicate IsRun(st: State, acts: seq<Action>)
    decreases acts
  {
    acts == [] || (Enabled(st, acts[0]) && IsRun(Step(st, acts[0]), acts[1..]))
  }

  /** The state at the end of a run. */
  ghost function Last(st: State, acts: seq<Action>): State
    requires IsRun(st, acts)
    decreases acts
  {
    if acts == [] then st else Last(Step(st, acts[0]), acts[1..])
  }

  lemma {:induction false} RunSnoc(st: State, acts: seq<Action>, a: Action)
    requires IsRun(st, acts) && Enabled(Last(st, acts), a)
    ensures IsRun(st, acts + [a]) && Last(st, acts + [a]) == Step(Last(st, acts), a)
    decreases acts
  {
    if acts == [] {
      RunCons(st, a, []);
      assert [] + [a] == [a] + [];
      assert ([a] + [])[1..] == [];
    } else {
      RunSnoc(Step(st, acts[0]), acts[1..], a);
      assert (acts + [a])[1..] == acts[1..] + [a];
    }
  }

  lemma RunCons(st: State, a: Action, rest: seq<Action>)
    ensures IsRun(st, [a] + rest) <==> Enabled(st, a) && IsRun(Step(st, a), rest)
    ensures IsRun(st, [a] + rest) ==> Last(st, [a] + rest) == Last(Step(st, a), rest)
    ensures IsRun(st, [a] + rest) ==>
              forall q: (State, Action) -> bool ::
                EachStep(q, st, [a] + rest) <==> q(st, a) && EachStep(q, Step(st, a), rest)
  {
    assert ([a] + rest)[1..] == rest;
  }

  /** What holds in every state of a run holds in its last one. */
  lemma {:induction false} AlwaysAtLast(p: State -> bool, st: State, acts: seq<Action>)
    requires IsRun(st, acts) && Always(p, st, acts)
    ensures p(Last(st, acts))
    decreases acts
  {
    if acts != [] {
      AlwaysAtLast(p, Step(st, acts[0]), acts[1..]);
    }
  }

  /** `p` holds in every state of a run. */
  ghost predicate Always(p: State -> bool, st: State, acts: seq<Action>)
    requires IsRun(st, acts)
    decreases acts
  {
    p(st) && (acts == [] || Always(p, Step(st, acts[0]), acts[1..]))
  }

  /** `q` holds of every step of a run. */
  ghost predicate EachStep(q: (State, Action) -> bool, st: State, acts: seq<Action>)
    requires IsRun(st, acts)
    decreases acts
  {
    acts == [] || (q(st, acts[0]) && EachStep(q, Step(st, acts[0]), acts[1..]))
  }

  /** `q` is exactly what a step must satisfy to keep `p`, as long as `base` holds, which every step keeps. */
  ghost predicate ExactlyKeeps(base: State -> bool, p: State -> bool, q: (State, Action) -> bool) {
    && (forall st, a :: Enabled(st, a) && base(st) ==> base(Step(st, a)))
    && (forall st, a :: Enabled(st, a) && base(st) && p(st) ==> (p(Step(st, a)) <==> q(st, a)))
  }

  /** From steps to runs: `p` holds throughout if and only if every step satisfies `q`. */
  lemma {:induction false} ExactInvariant(base: State -> bool, p: State -> bool, q: (State, Action) -> bool,
                                          st: State, acts: seq<Action>)
    requires ExactlyKeeps(base, p, q) && base(st) && p(st) && IsRun(st, acts)
    ensures Always(p, st, acts) <==> EachStep(q, st, acts)
    decreases acts
  {
    if acts != [] {
      var a := acts[0];
      assert base(Step(st, a));
      if p(Step(st, a)) {
        ExactInvariant(base, p, q, Step(st, a), acts[1..]);
      } else {
        assert !Always(p, Step(st, a), acts[1..]);
      }
    }
  }

  /** An invariant every step keeps holds in every reachable state. */
  lemma {:induction false} Invariant(p: State -> bool, st: State, acts: seq<Action>)
    requires p(st) && IsRun(st, acts)
    requires forall st, a :: Enabled(st, a) && p(st) ==> p(Step(st, a))
    ensures Always(p, st, acts)
    decreases acts
  {
    if acts != [] {
      Invariant(p, Step(st, acts[0]), acts[1..]);
    }
  }

  // ------------------------------------------------------------------
  // Registry and events, without any hypothesis
  // ------------------------------------------------------------------

  /** The latest connection event of an IMEI. */
  function LastEvent(events: seq<ConnectionEvent>, imei: Imei): Option<ConnectionEvent> {
    if events == [] then None
    else if events[|events| - 1].imei == imei then Some(events[|events| - 1])
    else LastEvent(events[..|events| - 1], imei)
  }

  lemma LastEventSnoc(events: seq<ConnectionEvent>, e: ConnectionEvent, imei: Imei)
    ensures LastEvent(events + [e], imei) == if e.imei == imei then Some(e) else LastEvent(events, imei)
  {
    assert (events + [e])[..|events|] == events;
  }

  ghost predicate Mirrored(c: Connections, imei: Imei) {
    var last := LastEvent(c.events, imei);
    if imei in c.sockets then last == Some(Connected(imei, c.sockets[imei])) else last.None? || last.value.Disconnected?
  }

  /**
   * The two maps have equal keys, and the registry is the fold of the event log: it holds an
   * IMEI iff its latest event is a connection, and then points to the socket of that event.
   */
  ghost predicate MirrorsEvents(st: State) {
    && st.conn.sockets.Keys == st.conn.info.Keys
    && st.conn.open.Keys <= st.conn.known
    && forall imei :: Mirrored(st.conn, imei)
  }

  lemma RegisterMirrors(c: Connections, s: SocketId, i: Imei, now: Time, imei: Imei)
    requires s in c.open && Mirrored(c, imei)
    ensures Mirrored(RegisterDevice(c, s, i, now), imei)
  {
    LastEventSnoc(c.events, Connected(i, s), imei);
  }

  lemma DisconnectMirrors(c: Connections, s: SocketId, imei: Imei)
    requires s in c.open && Mirrored(c, imei)
    ensures Mirrored(Disconnect(c, s), imei)
  {
    if c.open[s].Some? {
      LastEventSnoc(c.events, Disconnected(c.open[s].value, s), imei);
    }
  }

  lemma StepMirrorsEvents(st: State, a: Action)
    requires Enabled(st, a) && MirrorsEvents(st)
    ensures MirrorsEvents(Step(st, a))
  {
    forall imei
      ensures Mirrored(Step(st, a).conn, imei)
    {
      assert Mirrored(st.conn, imei);
      match a
      case Receive(s, Parsed(_, i, _, _), now) => RegisterMirrors(st.conn, s, i, now, imei);
      case Close(s) => DisconnectMirrors(st.conn, s, imei);
      case _ =>
    }
  }

  /** In every reachable state, whatever the devices do. */
  lemma RegistryMirrorsEvents(acts: seq<Action>)
    requires IsRun(INITIAL, acts)
    ensures Always(MirrorsEvents, INITIAL, acts)
  {
    forall st, a | Enabled(st, a) && MirrorsEvents(st)
      ensures MirrorsEvents(Step(st, a))
    {
      StepMirrorsEvents(st, a);
    }
    assert MirrorsEvents(INITIAL);
    Invariant(MirrorsEvents, INITIAL, acts);
  }

  // ------------------------------------------------------------------
  // When the registry tells the truth about sockets
  // ------------------------------------------------------------------

  ghost predicate OpenKnown(st: State) {
    st.conn.open.Keys <= st.conn.known
  }

  /** Every entry points to an open socket identified as that IMEI. */
  ghost predicate Sound(st: State) {
    forall imei :: imei in st.conn.sockets ==>
      st.conn.sockets[imei] in st.conn.open && st.conn.open[st.conn.sockets[imei]] == Some(imei)
  }

  /** The open sockets identified as an IMEI. */
  function Identified(c: Connections, imei: Imei): set<SocketId> {
    set s | s in c.open && c.open[s] == Some(imei)
  }

  /** `isConnected` holds exactly when some open socket is identified as the IMEI. */
  ghost predicate Truthful(st: State) {
    forall imei :: imei in st.conn.sockets <==> Identified(st.conn, imei) != {}
  }

  /** The step makes an identified socket report another IMEI. */
  predicate Reidentifies(st: State, a: Action) {
    && a.Receive? && a.incoming.Parsed? && a.socket in st.conn.open
    && st.conn.open[a.socket].Some? && st.conn.open[a.socket].value != a.incoming.imei
  }

  /** A step keeps soundness unless it takes a socket away from the IMEI it is registered under. */
  predicate KeepsSound(st: State, a: Action) {
    Reidentifies(st, a) ==>
      var left := st.conn.open[a.socket].value;
      left !in st.conn.sockets || st.conn.sockets[left] != a.socket
  }

  /** Closing must leave no other socket with the IMEI; reporting another IMEI must leave some. */
  predicate KeepsTruthful(st: State, a: Action) {
    && (a.Close? && a.socket in st.conn.open && st.conn.open[a.socket].Some? ==>
          Identified(st.conn, st.conn.open[a.socket].value) == {a.socket})
    && (Reidentifies(st, a) ==> Identified(st.conn, st.conn.open[a.socket].value) != {a.socket})
  }

  lemma StepSound(st: State, a: Action)
    requires Enabled(st, a) && OpenKnown(st) && Sound(st)
    ensures Sound(Step(st, a)) <==> KeepsSound(st, a)
  {
    if !KeepsSound(st, a) {
      assert st.conn.open[a.socket].value in Step(st, a).conn.sockets;
    }
  }

  /**
   * Registry soundness, exactly: every entry points to an open socket identified as its IMEI
   * throughout a run, if and only if no socket reports another IMEI while it is the one
   * registered. Reconnecting before the old socket closes does no harm.
   */
  lemma SoundExactly(acts: seq<Action>)
    requires IsRun(INITIAL, acts)
    ensures Always(Sound, INITIAL, acts) <==> EachStep(KeepsSound, INITIAL, acts)
  {
    forall st, a | Enabled(st, a) && OpenKnown(st)
      ensures OpenKnown(Step(st, a)) && (Sound(st) ==> (Sound(Step(st, a)) <==> KeepsSound(st, a)))
    {
      if Sound(st) {
        StepSound(st, a);
      }
    }
    assert OpenKnown(INITIAL) && Sound(INITIAL);
    ExactInvariant(OpenKnown, Sound, KeepsSound, INITIAL, acts);
  }

  lemma StepIdentified(st: State, a: Action, imei: Imei)
    requires Enabled(st, a) && OpenKnown(st)
    ensures Identified(Step(st, a).conn, imei) ==
            if a.Receive? && a.incoming.Parsed? then
              if a.incoming.imei == imei then Identified(st.conn, imei) + {a.socket}
              else Identified(st.conn, imei) - {a.socket}
            else if a.Close? then Identified(st.conn, imei) - {a.socket}
            else Identified(st.conn, imei)
  {}

  lemma StepTruthful(st: State, a: Action)
    requires Enabled(st, a) && OpenKnown(st) && Truthful(st)
    ensures Truthful(Step(st, a)) <==> KeepsTruthful(st, a)
  {
    assert a.Receive? && a.incoming.Parsed? && st.conn.open[a.socket] == Some(a.incoming.imei) ==>
      a.socket in Identified(st.conn, a.incoming.imei);
    forall imei
      ensures imei in Step(st, a).conn.sockets <==>
              if a.Receive? && a.incoming.Parsed? then imei == a.incoming.imei || imei in st.conn.sockets
              else if a.Close? && st.conn.open[a.socket].Some? then
                imei != st.conn.open[a.socket].value && imei in st.conn.sockets
              else imei in st.conn.sockets
    {
    }
    forall imei
      ensures (imei in Step(st, a).conn.sockets <==> Identified(Step(st, a).conn, imei) != {}) <==>
              KeepsFor(st, a, imei)
    {
      StepIdentified(st, a, imei);
      assert imei in st.conn.sockets <==> Identified(st.conn, imei) != {};
    }
  }

  /** `KeepsTruthful`, as seen by one IMEI. */
  predicate KeepsFor(st: State, a: Action, imei: Imei) {
    && (a.Close? && a.socket in st.conn.open && st.conn.open[a.socket] == Some(imei) ==>
        Identified(st.conn, imei) == {a.socket})
    && (Reidentifies(st, a) && st.conn.open[a.socket] == Some(imei) ==> Identified(st.conn, imei) != {a.socket})
  }

  /**
   * `isConnected`, exactly: it holds for an IMEI iff some open socket is identified as it,
   * throughout a run, if and only if no socket closes while another one has its IMEI and
   * none leaves an IMEI for another without leaving a socket behind.
   */
  lemma TruthfulExactly(acts: seq<Action>)
    requires IsRun(INITIAL, acts)
    ensures Always(Truthful, INITIAL, acts) <==> EachStep(KeepsTruthful, INITIAL, acts)
  {
    forall st, a | Enabled(st, a) && OpenKnown(st)
      ensures OpenKnown(Step(st, a)) && (Truthful(st) ==> (Truthful(Step(st, a)) <==> KeepsTruthful(st, a)))
    {
      if Truthful(st) {
        StepTruthful(st, a);
      }
    }
    assert OpenKnown(INITIAL) && Truthful(INITIAL);
    ExactInvariant(OpenKnown, Truthful, KeepsTruthful, INITIAL, acts);
  }

  // ------------------------------------------------------------------
  // Connection events
  // ------------------------------------------------------------------

  /** Connected events minus disconnected events. */
  function Balance(events: seq<ConnectionEvent>, imei: Imei): int {
    if events == [] then 0
    else
      var e := events[|events| - 1];
      Balance(events[..|events| - 1], imei) + (if e.imei != imei then 0 else if e.Connected? then 1 else -1)
  }

  lemma BalanceSnoc(events: seq<ConnectionEvent>, e: ConnectionEvent, imei: Imei)
    ensures Balance(events + [e], imei) ==
            Balance(events, imei) + (if e.imei != imei then 0 else if e.Connected? then 1 else -1)
  {
    assert (events + [e])[..|events|] == events;
  }

  ghost predicate BalancedFor(c: Connections, imei: Imei) {
    Balance(c.events, imei) == |Identified(c, imei)|
  }

  /** For every IMEI, the events balance to the number of open sockets identified as it. */
  ghost predicate Balanced(st: State) {
    forall imei :: BalancedFor(st.conn, imei)
  }

  predicate KeepsIdentity(st: State, a: Action) {
    !Reidentifies(st, a)
  }

  /** How a step moves the events of one IMEI. */
  lemma StepBalance(st: State, a: Action, imei: Imei)
    requires Enabled(st, a) && OpenKnown(st)
    ensures Balance(Step(st, a).conn.events, imei) == Balance(st.conn.events, imei) +
            (match a
             case Receive(s, Parsed(_, i, _, _), _) => if i == imei && st.conn.open[s] != Some(i) then 1 else 0
             case Close(s) => if st.conn.open[s] == Some(imei) then -1 else 0
             case _ => 0)
  {
    match a
    case Receive(s, Parsed(_, i, _, _), _) => BalanceSnoc(st.conn.events, Connected(i, s), imei);
    case Close(s) =>
      if st.conn.open[s].Some? {
        BalanceSnoc(st.conn.events, Disconnected(st.conn.open[s].value, s), imei);
      }
    case _ =>
  }

  lemma StepBalanced(st: State, a: Action)
    requires Enabled(st, a) && OpenKnown(st) && Balanced(st)
    ensures Balanced(Step(st, a)) <==> KeepsIdentity(st, a)
  {
    forall imei
      ensures BalancedFor(Step(st, a).conn, imei) <==> !(Reidentifies(st, a) && st.conn.open[a.socket] == Some(imei))
    {
      assert BalancedFor(st.conn, imei);
      StepIdentified(st, a, imei);
      StepBalance(st, a, imei);
    }
    if Reidentifies(st, a) {
      assert !BalancedFor(Step(st, a).conn, st.conn.open[a.socket].value);
    }
  }

  /**
   * Event balance, exactly: for every IMEI, connected minus disconnected events is the number
   * of open sockets identified as it, throughout a run, if and only if no socket changes IMEI.
   */
  lemma BalancedExactly(acts: seq<Action>)
    requires IsRun(INITIAL, acts)
    ensures Always(Balanced, INITIAL, acts) <==> EachStep(KeepsIdentity, INITIAL, acts)
  {
    forall st, a | Enabled(st, a) && OpenKnown(st)
      ensures OpenKnown(Step(st, a)) && (Balanced(st) ==> (Balanced(Step(st, a)) <==> KeepsIdentity(st, a)))
    {
      if Balanced(st) {
        StepBalanced(st, a);
      }
    }
    assert OpenKnown(INITIAL);
    assert forall imei :: Identified(INITIAL.conn, imei) == {};
    assert Balanced(INITIAL);
    ExactInvariant(OpenKnown, Balanced, KeepsIdentity, INITIAL, acts);
  }

  /** The events of one socket, in order. */
  function EventsOf(events: seq<ConnectionEvent>, s: SocketId): seq<ConnectionEvent> {
    if events == [] then []
    else
      var e := events[|events| - 1];
      EventsOf(events[..|events| - 1], s) + (if e.socket == s then [e] else [])
  }

  lemma EventsOfSnoc(events: seq<ConnectionEvent>, e: ConnectionEvent, s: SocketId)
    ensures EventsOf(events + [e], s) == EventsOf(events, s) + (if e.socket == s then [e] else [])
  {
    assert (events + [e])[..|events|] == events;
  }

  /** A socket's own events: none, or one connection, followed by one disconnection once it is closed. */
  ghost predicate OrderlyFor(c: Connections, s: SocketId) {
    OrderlyEvents(s in c.known, OpenAs(c, s), EventsOf(c.events, s), s)
  }

  ghost predicate Orderly(st: State) {
    forall s :: OrderlyFor(st.conn, s)
  }

  /** The connection event a step emits, if any. */
  function Emits(c: Connections, a: Action): seq<ConnectionEvent>
    requires a.Receive? || a.Close? ==> a.socket in c.open
  {
    match a
    case Receive(s, Parsed(_, i, _, _), _) => if c.open[s] != Some(i) then [Connected(i, s)] else []
    case Close(s) => if c.open[s].Some? then [Disconnected(c.open[s].value, s)] else []
    case _ => []
  }

  /** How a step moves the events of one socket. */
  lemma StepEventsOf(st: State, a: Action, s: SocketId)
    requires Enabled(st, a) && OpenKnown(st)
    ensures EventsOf(Step(st, a).conn.events, s) == EventsOf(st.conn.events, s) +
            (if (a.Receive? || a.Close?) && a.socket == s then Emits(st.conn, a) else [])
  {
    match a
    case Receive(t, Parsed(_, i, _, _), _) => EventsOfSnoc(st.conn.events, Connected(i, t), s);
    case Close(t) =>
      if st.conn.open[t].Some? {
        EventsOfSnoc(st.conn.events, Disconnected(st.conn.open[t].value, t), s);
      }
    case _ =>
  }

  /** `OrderlyFor` on the parts of the state it reads. */
  ghost predicate OrderlyEvents(known: bool, open: Option<Option<Imei>>, es: seq<ConnectionEvent>, s: SocketId) {
    match open
    case Some(Some(imei)) => known && es == [Connected(imei, s)]
    case Some(None) => known && es == []
    case None => es == [] || (known && |es| == 2 && es[0].Connected? && es[1] == Disconnected(es[0].imei, s))
  }

  function OpenAs(c: Connections, s: SocketId): Option<Option<Imei>> {
    if s in c.open then Some(c.open[s]) else None
  }

  lemma StepOpenAs(st: State, a: Action, s: SocketId)
    requires Enabled(st, a) && OpenKnown(st)
    ensures OpenAs(Step(st, a).conn, s) ==
            if (a.Settle? || a.socket != s) then OpenAs(st.conn, s)
            else if a.Open? then Some(None)
            else if a.Close? then None
            else if a.incoming.Parsed? then Some(Some(a.incoming.imei)) else OpenAs(st.conn, s)
    ensures s in Step(st, a).conn.known <==> s in st.conn.known || (a.Open? && a.socket == s)
  {}

  lemma StepOrderlyFor(st: State, a: Action, s: SocketId)
    requires Enabled(st, a) && OpenKnown(st) && OrderlyFor(st.conn, s)
    ensures OrderlyFor(Step(st, a).conn, s) <==> !(Reidentifies(st, a) && s == a.socket)
  {
    StepEventsOf(st, a, s);
    StepOpenAs(st, a, s);
    if !a.Settle? && a.socket == s {
      OrderlyMoves(st.conn, a, s, EventsOf(st.conn.events, s));
    }
  }

  lemma OrderlyMoves(c: Connections, a: Action, s: SocketId, es: seq<ConnectionEvent>)
    requires (a.Receive? || a.Close? ==> a.socket in c.open && a.socket in c.known) &&
             (a.Open? ==> a.socket !in c.known)
    requires OrderlyEvents(s in c.known, OpenAs(c, s), es, s)
    requires !a.Settle? && a.socket == s
    ensures a.Open? ==> OrderlyEvents(true, Some(None), es, s)
    ensures a.Close? ==> OrderlyEvents(true, None, es + Emits(c, a), s)
    ensures a.Receive? && a.incoming.Parsed? ==>
              (OrderlyEvents(true, Some(Some(a.incoming.imei)), es + Emits(c, a), s) <==>
               c.open[s].None? || c.open[s].value == a.incoming.imei)
  {}

  lemma StepOrderly(st: State, a: Action)
    requires Enabled(st, a) && OpenKnown(st) && Orderly(st)
    ensures Orderly(Step(st, a)) <==> KeepsIdentity(st, a)
  {
    forall s
      ensures OrderlyFor(Step(st, a).conn, s) <==> !(Reidentifies(st, a) && s == a.socket)
    {
      assert OrderlyFor(st.conn, s);
      StepOrderlyFor(st, a, s);
    }
    if Reidentifies(st, a) {
      assert !OrderlyFor(Step(st, a).conn, a.socket);
    }
  }

  /**
   * Each socket's own events are at most one connected followed by at most one disconnected, exactly
   * while no socket changes IMEI.
   */
  lemma OrderlyExactly(acts: seq<Action>)
    requires IsRun(INITIAL, acts)
    ensures Always(Orderly, INITIAL, acts) <==> EachStep(KeepsIdentity, INITIAL, acts)
  {
    forall st, a | Enabled(st, a) && OpenKnown(st)
      ensures OpenKnown(Step(st, a)) && (Orderly(st) ==> (Orderly(Step(st, a)) <==> KeepsIdentity(st, a)))
    {
      if Orderly(st) {
        StepOrderly(st, a);
      }
    }
    assert OpenKnown(INITIAL) && Orderly(INITIAL);
    ExactInvariant(OpenKnown, Orderly, KeepsIdentity, INITIAL, acts);
  }

  /** A frame that identifies a socket and starts no save. */
  function Hello(imei: Imei): Incoming {
    Parsed(HeartbeatFrame, imei, 1, false)
  }

  /** Two sockets of one device: the new one connects before the old one closes. */
  function OverlapRun(imei: Imei): seq<Action> {
    [Open(0)] + ([Receive(0, Hello(imei), 1)] + ([Open(1)] + ([Receive(1, Hello(imei), 2)] + ([Close(0)] + []))))
  }

  /** The states of that run. */
  lemma OverlapStates(imei: Imei) returns (s1: State, s2: State, s3: State, s4: State, s5: State)
    ensures Enabled(INITIAL, Open(0)) && s1 == Step(INITIAL, Open(0))
    ensures Enabled(s1, Receive(0, Hello(imei), 1)) && s2 == Step(s1, Receive(0, Hello(imei), 1))
    ensures Enabled(s2, Open(1)) && s3 == Step(s2, Open(1))
    ensures Enabled(s3, Receive(1, Hello(imei), 2)) && s4 == Step(s3, Receive(1, Hello(imei), 2))
    ensures Enabled(s4, Close(0)) && s5 == Step(s4, Close(0))
    ensures KeepsIdentity(s1, Receive(0, Hello(imei), 1)) && KeepsIdentity(s3, Receive(1, Hello(imei), 2))
    ensures s5.conn.open == map[1 := Some(imei)] && imei !in s5.conn.sockets && imei !in s5.conn.info
  {
    s1 := Step(INITIAL, Open(0));
    s2 := Step(s1, Receive(0, Hello(imei), 1));
    s3 := Step(s2, Open(1));
    s4 := Step(s3, Receive(1, Hello(imei), 2));
    s5 := Step(s4, Close(0));
    assert s4.conn.open == map[0 := Some(imei), 1 := Some(imei)];
  }

  /**
   * The close of the old socket takes the IMEI out of the registry although the new socket is
   * open and identified as it; no socket ever changed its IMEI.
   */
  lemma OverlapWitness(imei: Imei)
    ensures IsRun(INITIAL, OverlapRun(imei)) && EachStep(KeepsIdentity, INITIAL, OverlapRun(imei))
    ensures var st := Last(INITIAL, OverlapRun(imei));
            st.conn.open == map[1 := Some(imei)] && imei !in st.conn.sockets && imei !in st.conn.info
    ensures !Always(Truthful, INITIAL, OverlapRun(imei))
  {
    var a4 := [Close(0)] + [];
    var a3 := [Receive(1, Hello(imei), 2)] + a4;
    var a2 := [Open(1)] + a3;
    var a1 := [Receive(0, Hello(imei), 1)] + a2;
    var s1, s2, s3, s4, s5 := OverlapStates(imei);
    RunCons(s4, Close(0), []);
    RunCons(s3, Receive(1, Hello(imei), 2), a4);
    RunCons(s2, Open(1), a3);
    RunCons(s1, Receive(0, Hello(imei), 1), a2);
    RunCons(INITIAL, Open(0), a1);
    UntruthfulEnd(imei, OverlapRun(imei));
  }

  lemma UntruthfulEnd(imei: Imei, acts: seq<Action>)
    requires IsRun(INITIAL, acts)
    requires Last(INITIAL, acts).conn.open == map[1 := Some(imei)] && imei !in Last(INITIAL, acts).conn.sockets
    ensures !Always(Truthful, INITIAL, acts)
  {
    assert 1 in Identified(Last(INITIAL, acts).conn, imei);
    if Always(Truthful, INITIAL, acts) {
      AlwaysAtLast(Truthful, INITIAL, acts);
    }
  }

  /** One socket that reports two IMEIs. */
  function ReidentifiedRun(first: Imei, second: Imei): seq<Action> {
    [Open(0)] + ([Receive(0, Hello(first), 1)] + ([Receive(0, Hello(second), 2)] + []))
  }

  /**
   * The first IMEI stays registered with a socket that now has the second one; its events balance
   * to one socket although none has it; and the socket has connected twice.
   */
  lemma ReidentifiedWitness(first: Imei, second: Imei)
    requires first != second
    ensures IsRun(INITIAL, ReidentifiedRun(first, second))
    ensures var st := Last(INITIAL, ReidentifiedRun(first, second));
            && st.conn.open == map[0 := Some(second)] && st.conn.sockets == map[first := 0, second := 0]
            && st.conn.events == [Connected(first, 0), Connected(second, 0)]
            && !Sound(st) && !Truthful(st) && !Balanced(st) && !Orderly(st)
  {
    var a2 := [Receive(0, Hello(second), 2)] + [];
    var a1 := [Receive(0, Hello(first), 1)] + a2;
    var s1 := Step(INITIAL, Open(0));
    var s2 := Step(s1, Receive(0, Hello(first), 1));
    var s3 := Step(s2, Receive(0, Hello(second), 2));
    RunCons(s2, Receive(0, Hello(second), 2), []);
    RunCons(s1, Receive(0, Hello(first), 1), a2);
    RunCons(INITIAL, Open(0), a1);
    assert s3.conn.events == [Connected(first, 0)] + [Connected(second, 0)];
    ReidentifiedState(first, second, s3);
  }

  lemma ReidentifiedState(first: Imei, second: Imei, st: State)
    requires first != second && st.conn.open == map[0 := Some(second)] &&
             st.conn.sockets == map[first := 0, second := 0]
    requires st.conn.known == {0} && st.conn.events == [Connected(first, 0)] + [Connected(second, 0)]
    ensures !Sound(st) && !Truthful(st) && !Balanced(st) && !Orderly(st)
  {
    assert first in st.conn.sockets && Identified(st.conn, first) == {};
    assert [Connected(first, 0)] == [] + [Connected(first, 0)];
    BalanceSnoc([Connected(first, 0)], Connected(second, 0), first);
    BalanceSnoc([], Connected(first, 0), first);
    assert !BalancedFor(st.conn, first);
    EventsOfSnoc([Connected(first, 0)], Connected(second, 0), 0);
    EventsOfSnoc([], Connected(first, 0), 0);
    assert !OrderlyFor(st.conn, 0);
  }

  // ------------------------------------------------------------------
  // Acknowledgements, against the actions of the run
  // ------------------------------------------------------------------

  /** Received report frames of a socket that carry a serial number. */
  function ReportsReceived(acts: seq<Action>, s: SocketId, serial: nat): nat {
    if acts == [] then 0
    else
      var a := acts[0];
      (if a.Receive? && a.socket == s && a.incoming.Parsed? && a.incoming.kind.ReportFrame? &&
       a.incoming.serial == serial
       then 1 else 0) + ReportsReceived(acts[1..], s, serial)
  }

  function SavesFor(saves: seq<Save>, s: SocketId, serial: nat): nat {
    if saves == [] then 0
    else SavesFor(saves[..|saves| - 1], s, serial) +
         if saves[|saves| - 1].socket == s && saves[|saves| - 1].serial == serial then 1 else 0
  }

  function SacksFor(writes: seq<Write>, s: SocketId, serial: nat): nat {
    if writes == [] then 0
    else SacksFor(writes[..|writes| - 1], s, serial) + if writes[|writes| - 1] == Sack(s, serial) then 1 else 0
  }

  lemma SavesForSnoc(saves: seq<Save>, save: Save, s: SocketId, serial: nat)
    ensures SavesFor(saves + [save], s, serial) ==
            SavesFor(saves, s, serial) + if save.socket == s && save.serial == serial then 1 else 0
  {
    assert (saves + [save])[..|saves|] == saves;
  }

  lemma SacksForSnoc(writes: seq<Write>, w: Write, s: SocketId, serial: nat)
    ensures SacksFor(writes + [w], s, serial) == SacksFor(writes, s, serial) + if w == Sack(s, serial) then 1 else 0
  {
    assert (writes + [w])[..|writes|] == writes;
  }

  lemma {:induction false} SavesForRemoved(saves: seq<Save>, i: nat, s: SocketId, serial: nat)
    requires i < |saves|
    ensures SavesFor(saves, s, serial) ==
            SavesFor(RemoveAt(saves, i), s, serial) + if saves[i].socket == s && saves[i].serial == serial then 1 else 0
    decreases |saves|
  {
    var n := |saves| - 1;
    if i == n {
      assert RemoveAt(saves, i) == saves[..n];
    } else {
      SavesForRemoved(saves[..n], i, s, serial);
      assert RemoveAt(saves, i) == RemoveAt(saves[..n], i) + [saves[n]];
      SavesForSnoc(RemoveAt(saves[..n], i), saves[n], s, serial);
    }
  }

  /** What a step adds to the in-flight saves and +SACK writes of a socket and serial number. */
  lemma StepAcks(st: State, a: Action, s: SocketId, serial: nat)
    requires Enabled(st, a)
    ensures var k, l := st.acks, Step(st, a).acks;
            SavesFor(l.inFlight, s, serial) + SacksFor(l.writes, s, serial) ==
            SavesFor(k.inFlight, s, serial) + SacksFor(k.writes, s, serial) + ReportsReceived([a], s, serial)
  {
    var k := st.acks;
    assert [a][1..] == [];
    match a
    case Receive(t, Parsed(ReportFrame, imei, n, r), _) => SavesForSnoc(k.inFlight, Save(t, imei, n, r), s, serial);
    case Receive(t, Parsed(HeartbeatFrame, _, n, _), _) => SacksForSnoc(k.writes, Shbd(t, n), s, serial);
    case Settle(i, _) =>
      SavesForRemoved(k.inFlight, i, s, serial);
      SacksForSnoc(k.writes, Sack(k.inFlight[i].socket, k.inFlight[i].serial), s, serial);
    case _ =>
  }

  lemma {:induction false} RunAcks(st: State, acts: seq<Action>, s: SocketId, serial: nat)
    requires IsRun(st, acts)
    ensures var k, l := st.acks, Last(st, acts).acks;
            SavesFor(l.inFlight, s, serial) + SacksFor(l.writes, s, serial) ==
            SavesFor(k.inFlight, s, serial) + SacksFor(k.writes, s, serial) + ReportsReceived(acts, s, serial)
    decreases acts
  {
    if acts != [] {
      StepAcks(st, acts[0], s, serial);
      assert [acts[0]][1..] == [];
      RunAcks(Step(st, acts[0]), acts[1..], s, serial);
    }
  }

  /**
   * Acknowledgement conservation: in every reachable state, for every socket and serial number,
   * the report frames received are the saves in flight and the +SACK writes together.
   */
  lemma AcksConserved(acts: seq<Action>, s: SocketId, serial: nat)
    requires IsRun(INITIAL, acts)
    ensures var k := Last(INITIAL, acts).acks;
            ReportsReceived(acts, s, serial) == SavesFor(k.inFlight, s, serial) + SacksFor(k.writes, s, serial)
  {
    RunAcks(INITIAL, acts, s, serial);
  }

  /** The writes of each kind, in order. */
  function Shbds(writes: seq<Write>): seq<Write> {
    if writes == [] then []
    else Shbds(writes[..|writes| - 1]) + (if writes[|writes| - 1].Shbd? then [writes[|writes| - 1]] else [])
  }

  function Sacks(writes: seq<Write>): seq<Write> {
    if writes == [] then []
    else Sacks(writes[..|writes| - 1]) + (if writes[|writes| - 1].Sack? then [writes[|writes| - 1]] else [])
  }

  lemma WritesSnoc(writes: seq<Write>, w: Write)
    ensures Sacks(writes + [w]) == Sacks(writes) + (if w.Sack? then [w] else [])
    ensures Shbds(writes + [w]) == Shbds(writes) + (if w.Shbd? then [w] else [])
  {
    assert (writes + [w])[..|writes|] == writes;
  }

  /** The +SHBD that each received heartbeat asks for. */
  function BeatsReceived(acts: seq<Action>): seq<Write> {
    if acts == [] then [] else BeatIn(acts[0]) + BeatsReceived(acts[1..])
  }

  function BeatIn(a: Action): seq<Write> {
    if a.Receive? && a.incoming.Parsed? && a.incoming.kind.HeartbeatFrame?
    then [Shbd(a.socket, a.incoming.serial)]
    else []
  }

  /** The saves that settle in a run, in order; with `storedOnly`, those that settle with a stored report. */
  ghost function SavesSettled(st: State, acts: seq<Action>, storedOnly: bool): seq<Save>
    requires IsRun(st, acts)
    decreases acts
  {
    if acts == [] then []
    else SettledBy(st, acts[0], storedOnly) + SavesSettled(Step(st, acts[0]), acts[1..], storedOnly)
  }

  function SettledBy(st: State, a: Action, storedOnly: bool): seq<Save>
    requires Enabled(st, a)
  {
    if a.Settle? && (storedOnly ==> a.outcome.Stored?) then [st.acks.inFlight[a.index]] else []
  }

  function SackOf(save: Save): Write {
    Sack(save.socket, save.serial)
  }

  function SacksOf(saves: seq<Save>): (ws: seq<Write>)
    ensures |ws| == |saves| && forall i :: 0 <= i < |saves| ==> ws[i] == SackOf(saves[i])
  {
    seq(|saves|, i requires 0 <= i < |saves| => SackOf(saves[i]))
  }

  lemma SacksOfAppend(a: seq<Save>, b: seq<Save>)
    ensures SacksOf(a + b) == SacksOf(a) + SacksOf(b)
  {}

  /** What a step adds to the writes and the published events. */
  lemma StepWrites(st: State, a: Action)
    requires Enabled(st, a)
    ensures var k, l := st.acks, Step(st, a).acks;
            && Shbds(l.writes) == Shbds(k.writes) + BeatIn(a)
            && Sacks(l.writes) == Sacks(k.writes) + SacksOf(SettledBy(st, a, false))
            && l.published == k.published + SettledBy(st, a, true)
  {
    var k := st.acks;
    match a
    case Receive(s, Parsed(HeartbeatFrame, _, serial, _), _) => WritesSnoc(k.writes, Shbd(s, serial));
    case Settle(i, _) => WritesSnoc(k.writes, SackOf(k.inFlight[i]));
    case _ =>
  }

  lemma {:induction false} RunWrites(st: State, acts: seq<Action>)
    requires IsRun(st, acts)
    ensures var k, l := st.acks, Last(st, acts).acks;
            && Shbds(l.writes) == Shbds(k.writes) + BeatsReceived(acts)
            && Sacks(l.writes) == Sacks(k.writes) + SacksOf(SavesSettled(st, acts, false))
            && l.published == k.published + SavesSettled(st, acts, true)
    decreases acts
  {
    var k := st.acks;
    if acts == [] {
      assert Shbds(k.writes) + [] == Shbds(k.writes) && Sacks(k.writes) + [] == Sacks(k.writes);
      assert k.published + [] == k.published;
    } else {
      var a, next, rest := acts[0], Step(st, acts[0]), acts[1..];
      StepWrites(st, a);
      RunWrites(next, rest);
      Assoc(Shbds(k.writes), BeatIn(a), BeatsReceived(rest));
      SacksOfAppend(SettledBy(st, a, false), SavesSettled(next, rest, false));
      Assoc(Sacks(k.writes), SacksOf(SettledBy(st, a, false)), SacksOf(SavesSettled(next, rest, false)));
      Assoc(k.published, SettledBy(st, a, true), SavesSettled(next, rest, true));
    }
  }

  /**
   * In every reachable state: one +SHBD per received heartbeat, in order; one +SACK per settled
   * save, in settling order and none before; the published events are the saves that settled
   * with a stored report, and each of those came from a received report frame that held one.
   */
  lemma WritesMirrorRun(acts: seq<Action>)
    requires IsRun(INITIAL, acts)
    ensures var k := Last(INITIAL, acts).acks;
            && Shbds(k.writes) == BeatsReceived(acts)
            && Sacks(k.writes) == SacksOf(SavesSettled(INITIAL, acts, false))
            && k.published == SavesSettled(INITIAL, acts, true)
            && forall save :: save in k.published ==> save.hasReport && WasReceived(acts, save)
  {
    RunWrites(INITIAL, acts);
    assert [] + BeatsReceived(acts) == BeatsReceived(acts);
    var k := Last(INITIAL, acts).acks;
    forall save | save in k.published
      ensures save.hasReport && WasReceived(acts, save)
    {
      PublishedCame(INITIAL, acts, save);
    }
  }

  /** Some report frame of the run asked for this save. */
  ghost predicate WasReceived(acts: seq<Action>, save: Save) {
    exists now: Time :: Receive(save.socket, Parsed(ReportFrame, save.imei, save.serial, save.hasReport), now) in acts
  }

  lemma InFlightCame(st: State, a: Action, save: Save)
    requires Enabled(st, a) && save in Step(st, a).acks.inFlight && save !in st.acks.inFlight
    ensures WasReceived([a], save)
  {
    assert a.Receive? && a in [a];
    assert a == Receive(save.socket, Parsed(ReportFrame, save.imei, save.serial, save.hasReport), a.now);
  }

  lemma {:induction false} PublishedCame(st: State, acts: seq<Action>, save: Save)
    requires IsRun(st, acts) && save in SavesSettled(st, acts, true)
    ensures save.hasReport && (save in st.acks.inFlight || WasReceived(acts, save))
    decreases acts
  {
    var a, rest := acts[0], acts[1..];
    assert acts == [a] + rest;
    if save !in SettledBy(st, a, true) {
      PublishedCame(Step(st, a), rest, save);
      if save !in st.acks.inFlight {
        if !WasReceived(rest, save) {
          InFlightCame(st, a, save);
        }
        CameInEither([a], rest, save);
      }
    }
  }

  lemma CameInEither(first: seq<Action>, rest: seq<Action>, save: Save)
    requires WasReceived(first, save) || WasReceived(rest, save)
    ensures WasReceived(first + rest, save)
  {
    var acts := if WasReceived(first, save) then first else rest;
    var now: Time :| Receive(save.socket, Parsed(ReportFrame, save.imei, save.serial, save.hasReport), now) in acts;
    assert Receive(save.socket, Parsed(ReportFrame, save.imei, save.serial, save.hasReport), now) in first + rest;
  }
}
