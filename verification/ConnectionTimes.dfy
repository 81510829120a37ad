/** What the connection registry says about times: since when a device is connected, and when it was last heard. */
module ConnectionTimes {
  import opened Wrappers
  import opened Server

  lemma {:induction false} PrefixIsRun(st: State, acts: seq<Action>)
    requires IsRun(st, acts) && acts != []
    ensures var n := |acts| - 1;
            && IsRun(st, acts[..n]) && Enabled(Last(st, acts[..n]), acts[n])
            && Last(st, acts) == Step(Last(st, acts[..n]), acts[n])
    decreases acts
  {
    var n := |acts| - 1;
    if n == 0 {
      assert acts[..0] == [] && acts[1..] == [];
    } else {
      PrefixIsRun(Step(st, acts[0]), acts[1..]);
      assert acts[1..][..n - 1] == acts[..n][1..];
    }
  }

  /** The step is a frame of this device. */
  predicate Hears(a: Action, imei: Imei) {
    a.Receive? && a.incoming.Parsed? && a.incoming.imei == imei
  }

  /** When the last frame of a device was received. */
  function LastHeard(acts: seq<Action>, imei: Imei): Option<Time> {
    if acts == [] then None
    else
      var n := |acts| - 1;
      if Hears(acts[n], imei) then Some(acts[n].now) else LastHeard(acts[..n], imei)
  }

  ghost predicate Registered(acts: seq<Action>, imei: Imei)
    requires IsRun(INITIAL, acts)
  {
    imei in Last(INITIAL, acts).conn.sockets
  }

  /** The time of the frame since which a device has been registered without interruption. */
  ghost function RegisteredSince(acts: seq<Action>, imei: Imei): Option<Time>
    requires IsRun(INITIAL, acts)
  {
    if acts == [] || !Registered(acts, imei) then None
    else
      var n := |acts| - 1;
      PrefixIsRun(INITIAL, acts);
      if Registered(acts[..n], imei) then RegisteredSince(acts[..n], imei)
      else if Hears(acts[n], imei) then Some(acts[n].now)
      else None
  }

  /** What the registry holds for one device. */
  ghost predicate TimesAre(c: Connections, imei: Imei, since: Option<Time>, heard: Option<Time>) {
    && (imei in c.sockets <==> imei in c.info)
    && (imei in c.info ==>
          && c.info[imei].imei == imei && c.info[imei].remote == c.sockets[imei]
          && since == Some(c.info[imei].connectedAt)
          && heard == Some(c.info[imei].lastActivityAt))
  }

  /** One step. */
  lemma StepTimes(st: State, a: Action, imei: Imei, since: Option<Time>, heard: Option<Time>)
    requires Enabled(st, a) && TimesAre(st.conn, imei, since, heard)
    ensures var next := Step(st, a).conn;
            && (imei in next.sockets && imei !in st.conn.sockets ==> Hears(a, imei))
            && TimesAre(next, imei,
                        if imei in st.conn.sockets then since else if Hears(a, imei) then Some(a.now) else None,
                        if Hears(a, imei) then Some(a.now) else heard)
  {
    match a
    case Receive(s, Parsed(kind, i, _, _), now) => ReceiveTimes(st.conn, s, kind, i, now, imei, since, heard);
    case _ =>
  }

  lemma ReceiveTimes(c: Connections, s: SocketId, kind: FrameKind, i: Imei, now: Time, imei: Imei,
                     since: Option<Time>, heard: Option<Time>)
    requires s in c.open && TimesAre(c, imei, since, heard)
    ensures var registered := RegisterDevice(c, s, i, now);
            var next :=
              if kind.HeartbeatFrame? then registered.(info := Touched(registered.info, i, now)) else registered;
            && (imei in next.sockets && imei !in c.sockets ==> i == imei)
            && TimesAre(next, imei, if imei in c.sockets then since else if i == imei then Some(now) else None,
                        if i == imei then Some(now) else heard)
  {}

  /**
   * In every reachable state the registry knows of each device the socket it is registered with, the
   * time of its last frame, and the time of the frame since which it has been registered without
   * interruption: reconnecting to another socket does not move it.
   */
  lemma {:induction false} RegistryTimes(acts: seq<Action>, imei: Imei)
    requires IsRun(INITIAL, acts)
    ensures TimesAre(Last(INITIAL, acts).conn, imei, RegisteredSince(acts, imei), LastHeard(acts, imei))
    decreases |acts|
  {
    if acts != [] {
      var n := |acts| - 1;
      PrefixIsRun(INITIAL, acts);
      RegistryTimes(acts[..n], imei);
      StepTimes(Last(INITIAL, acts[..n]), acts[n], imei, RegisteredSince(acts[..n], imei), LastHeard(acts[..n], imei));
    }
  }
}
