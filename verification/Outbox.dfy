/** The unread-event outbox and the find-then-mark poll over it. */
module Outbox {
  type EventId = nat
  type Time = int

  datatype Row = Row(occurredAt: Time, delivered: bool)

  type Table = map<EventId, Row>

  function Unread(rows: Table): (r: set<EventId>)
    ensures forall id :: id in r <==> id in rows && !rows[id].delivered
  {
    set id | id in rows && !rows[id].delivered
  }

  function SetOf(ids: seq<EventId>): set<EventId> {
    set id | id in ids
  }

  ghost predicate Distinct(ids: seq<EventId>) {
    forall i, j :: 0 <= i < j < |ids| ==> ids[i] != ids[j]
  }

  function Min(a: nat, b: nat): nat {
    if a < b then a else b
  }

  /**
   * What `findUnread(limit)` may return: the `limit` earliest unread rows, in order.
   * The query leaves the order of equal times open, so this is a relation.
   */
  ghost predicate IsFound(rows: Table, limit: nat, ids: seq<EventId>) {
    && Distinct(ids) && SetOf(ids) <= Unread(rows)
    && |ids| == Min(limit, |Unread(rows)|)
    && (forall i, j :: 0 <= i < j < |ids| ==> rows[ids[i]].occurredAt <= rows[ids[j]].occurredAt)
    && (forall i, id :: 0 <= i < |ids| && id in Unread(rows) && id !in ids ==>
        rows[ids[i]].occurredAt <= rows[id].occurredAt)
  }

  /** `markDelivered(ids)`. */
  function Marked(rows: Table, ids: seq<EventId>): (r: Table)
    ensures r.Keys == rows.Keys
    ensures Unread(r) == Unread(rows) - SetOf(ids)
    ensures forall id :: id in rows ==> r[id].occurredAt == rows[id].occurredAt
  {
    map id | id in rows :: if id in ids then rows[id].(delivered := true) else rows[id]
  }

  /** `limit && limit > 0 ? limit : 100`. */
  function EffectiveLimit(limit: int): (r: nat)
    ensures r > 0
  {
    if limit > 0 then limit else 100
  }

  // ------------------------------------------------------------------
  // The service object
  // ------------------------------------------------------------------

  lemma {:induction false} DistinctSize(ids: seq<EventId>)
    requires Distinct(ids)
    ensures |SetOf(ids)| == |ids|
  {
    if ids != [] {
      var n := |ids| - 1;
      DistinctSize(ids[..n]);
      assert SetOf(ids) == SetOf(ids[..n]) + {ids[n]};
    }
  }

  /** `ids` are the earliest unread rows, in order, and `left` the others. */
  ghost predicate Picking(rows: Table, ids: seq<EventId>, left: set<EventId>) {
    && Distinct(ids) && SetOf(ids) !! left && SetOf(ids) + left == Unread(rows)
    && |ids| + |left| == |Unread(rows)|
    && InOrder(rows, ids)
    && forall x, y :: x in ids && y in left ==> rows[x].occurredAt <= rows[y].occurredAt
  }

  ghost predicate InOrder(rows: Table, ids: seq<EventId>) {
    && SetOf(ids) <= rows.Keys
    && forall i, j :: 0 <= i < j < |ids| ==> rows[ids[i]].occurredAt <= rows[ids[j]].occurredAt
  }

  lemma PickOne(rows: Table, ids: seq<EventId>, left: set<EventId>, id: EventId)
    requires Picking(rows, ids, left) && id in left
    requires forall x :: x in left ==> x in rows && rows[id].occurredAt <= rows[x].occurredAt
    ensures Picking(rows, ids + [id], left - {id})
  {
    AppendPicked(ids, left, id, Unread(rows));
    AppendOrdered(rows, ids, id);
    forall x, y | x in ids + [id] && y in left - {id}
      ensures rows[x].occurredAt <= rows[y].occurredAt
    {
      assert x in ids || x == id;
    }
  }

  lemma AppendPicked(ids: seq<EventId>, left: set<EventId>, id: EventId, all: set<EventId>)
    requires Distinct(ids) && SetOf(ids) !! left && SetOf(ids) + left == all && id in left
    ensures Distinct(ids + [id]) && SetOf(ids + [id]) !! left - {id} && SetOf(ids + [id]) + (left - {id}) == all
  {
    assert SetOf(ids + [id]) == SetOf(ids) + {id};
    assert id !in SetOf(ids);
  }

  lemma AppendOrdered(rows: Table, ids: seq<EventId>, id: EventId)
    requires InOrder(rows, ids) && id in rows && forall x :: x in ids ==> rows[x].occurredAt <= rows[id].occurredAt
    ensures InOrder(rows, ids + [id])
  {
    var all := ids + [id];
    forall i, j | 0 <= i < j < |all|
      ensures rows[all[i]].occurredAt <= rows[all[j]].occurredAt
    {
      assert all[i] in ids;
    }
  }

  class EventOutbox {
    var rows: Table

    constructor ()
      ensures rows == map[]
    {
      rows := map[];
    }

    method Record(id: EventId, occurredAt: Time)
      requires id !in rows
      modifies this
      ensures rows == old(rows)[id := Row(occurredAt, false)]
    {
      rows := rows[id := Row(occurredAt, false)];
    }

    method FindUnread(limit: nat) returns (ids: seq<EventId>)
      ensures IsFound(rows, limit, ids)
    {
      ids := [];
      var left := Unread(rows);
      while |ids| < limit && left != {}
        invariant |ids| <= limit && Picking(rows, ids, left)
        decreases left
      {
        var id := Earliest(left);
        PickOne(rows, ids, left, id);
        ids := ids + [id];
        left := left - {id};
      }
    }

    method Earliest(candidates: set<EventId>) returns (id: EventId)
      requires candidates != {} && candidates <= rows.Keys
      ensures id in candidates && forall x :: x in candidates ==> rows[id].occurredAt <= rows[x].occurredAt
    {
      id :| id in candidates;
      var rest := candidates - {id};
      while rest != {}
        invariant id in candidates && rest <= candidates
        invariant forall x :: x in candidates && x !in rest ==> rows[id].occurredAt <= rows[x].occurredAt
        decreases rest
      {
        var x :| x in rest;
        if rows[x].occurredAt < rows[id].occurredAt {
          id := x;
        }
        rest := rest - {x};
      }
    }

    method MarkDelivered(ids: seq<EventId>)
      modifies this
      ensures rows == Marked(old(rows), ids)
    {
      if |ids| == 0 {
        assert rows == Marked(rows, ids);
        return;
      }
      rows := Marked(rows, ids);
    }

    /** The poll, run on its own. */
    method ListUnreadEvents(limit: int) returns (events: seq<EventId>)
      modifies this
      ensures IsFound(old(rows), if limit > 0 then limit else 100, events)
      ensures rows == Marked(old(rows), events)
    {
      events := FindUnread(EffectiveLimit(limit));
      if |events| > 0 {
        MarkDelivered(events);
      } else {
        assert rows == Marked(rows, events);
      }
    }
  }

  // ------------------------------------------------------------------
  // Any interleaving of many pollers
  // ------------------------------------------------------------------

  type PollerId = nat

  datatype Action =
    | Record(id: EventId, occurredAt: Time)
    | Find(poller: PollerId, limit: nat, ids: seq<EventId>)
    | Mark(poller: PollerId)

  /** `held` is what each poll in progress has found and not yet marked; `fetched` all that any find returned. */
  datatype State = State(rows: Table, held: map<PollerId, seq<EventId>>, fetched: set<EventId>, recorded: set<EventId>)

  const INITIAL := State(map[], map[], {}, {})

  ghost predicate Enabled(st: State, a: Action) {
    match a
    case Record(id, _) => id !in st.rows
    case Find(p, limit, ids) => p !in st.held && IsFound(st.rows, limit, ids)
    case Mark(p) => p in st.held
  }

  ghost function Step(st: State, a: Action): State
    requires Enabled(st, a)
  {
    match a
    case Record(id, t) => st.(rows := st.rows[id := Row(t, false)], recorded := st.recorded + {id})
    case Find(p, _, ids) => st.(held := st.held[p := ids], fetched := st.fetched + SetOf(ids))
    case Mark(p) => st.(rows := Marked(st.rows, st.held[p]), held := st.held - {p})
  }

  ghost predicate IsRun(st: State, acts: seq<Action>)
    decreases acts
  {
    acts == [] || (Enabled(st, acts[0]) && IsRun(Step(st, acts[0]), acts[1..]))
  }

  ghost function After(st: State, acts: seq<Action>): State
    requires IsRun(st, acts)
    decreases acts
  {
    if acts == [] then st else After(Step(st, acts[0]), acts[1..])
  }

  /** No event is lost: every recorded one is still unread, or some poll has fetched it. */
  ghost predicate NothingLost(st: State) {
    && st.recorded == st.rows.Keys
    && (forall id :: id in st.rows && st.rows[id].delivered ==> id in st.fetched)
    && (forall p :: p in st.held ==> SetOf(st.held[p]) <= st.fetched)
    && st.fetched <= st.recorded
  }

  lemma StepKeepsNothingLost(st: State, a: Action)
    requires Enabled(st, a) && NothingLost(st)
    ensures NothingLost(Step(st, a))
  {
    if a.Mark? {
      assert SetOf(st.held[a.poller]) <= st.fetched;
      forall id | id in st.held[a.poller]
        ensures id in st.fetched
      {
        assert id in SetOf(st.held[a.poller]);
      }
    }
  }

  lemma {:induction false} RunLosesNothing(st: State, acts: seq<Action>)
    requires NothingLost(st) && IsRun(st, acts)
    ensures NothingLost(After(st, acts))
    decreases acts
  {
    if acts != [] {
      StepKeepsNothingLost(st, acts[0]);
      RunLosesNothing(Step(st, acts[0]), acts[1..]);
    }
  }

  /** Whatever the interleaving: an event is marked delivered only if some poll fetched it. */
  lemma DeliveredOnlyIfFetched(acts: seq<Action>, id: EventId)
    requires IsRun(INITIAL, acts) && id in After(INITIAL, acts).rows
    ensures After(INITIAL, acts).rows[id].delivered ==> id in After(INITIAL, acts).fetched
  {
    RunLosesNothing(INITIAL, acts);
  }

  ghost predicate InProgress(st: State, id: EventId) {
    exists p :: p in st.held && id in st.held[p]
  }

  ghost predicate Fetches(a: Action, id: EventId) {
    a.Find? && id in a.ids
  }

  /** An unread event that no poll in progress holds stays so until some poll fetches it. */
  lemma {:induction false} UnheldStaysUnread(st: State, acts: seq<Action>, id: EventId)
    requires IsRun(st, acts) && id in Unread(st.rows) && !InProgress(st, id)
    requires forall a :: a in acts ==> !Fetches(a, id)
    ensures id in Unread(After(st, acts).rows) && !InProgress(After(st, acts), id)
    decreases acts
  {
    if acts != [] {
      var a, next := acts[0], Step(st, acts[0]);
      assert a in acts;
      if a.Mark? {
        assert id !in st.held[a.poller];
        assert id !in SetOf(st.held[a.poller]);
      }
      forall p | p in next.held
        ensures id !in next.held[p]
      {
        assert (a.Find? && p == a.poller) || (p in st.held && st.held[p] == next.held[p]);
      }
      UnheldStaysUnread(next, acts[1..], id);
    }
  }

  /**
   * No event is lost to a poll that was between its find and its mark when it was recorded: whatever
   * polls were in progress, and whatever any pollers do afterwards, it is unread until one fetches it.
   */
  lemma LateEventSurvives(before: seq<Action>, id: EventId, t: Time, acts: seq<Action>)
    requires IsRun(INITIAL, before) && Enabled(After(INITIAL, before), Record(id, t))
    requires IsRun(Step(After(INITIAL, before), Record(id, t)), acts)
    requires forall a :: a in acts ==> !Fetches(a, id)
    ensures id in Unread(After(Step(After(INITIAL, before), Record(id, t)), acts).rows)
  {
    RunLosesNothing(INITIAL, before);
    var st := After(INITIAL, before);
    var late := Step(st, Record(id, t));
    forall p | p in late.held
      ensures id !in late.held[p]
    {
      assert id !in SetOf(st.held[p]);
    }
    UnheldStaysUnread(late, acts, id);
  }

  /** Every fetched event is delivered already, or some poll in progress holds it. */
  ghost predicate HeldOrDone(st: State) {
    forall id :: id in st.fetched && id in st.rows && !st.rows[id].delivered ==> InProgress(st, id)
  }

  lemma StepKeepsHeldOrDone(st: State, a: Action)
    requires Enabled(st, a) && NothingLost(st) && HeldOrDone(st)
    ensures HeldOrDone(Step(st, a))
  {
    var t := Step(st, a);
    forall id | id in t.fetched && id in t.rows && !t.rows[id].delivered
      ensures InProgress(t, id)
    {
      if a.Find? && id in a.ids {
        assert id in t.held[a.poller];
      } else {
        assert id in st.fetched && id in st.rows && !st.rows[id].delivered;
        var p :| p in st.held && id in st.held[p];
        assert id in SetOf(st.held[p]);
        assert p in t.held && t.held[p] == st.held[p];
      }
    }
  }

  lemma {:induction false} RunKeepsHeldOrDone(st: State, acts: seq<Action>)
    requires NothingLost(st) && HeldOrDone(st) && IsRun(st, acts)
    ensures HeldOrDone(After(st, acts))
    decreases acts
  {
    if acts != [] {
      StepKeepsNothingLost(st, acts[0]);
      StepKeepsHeldOrDone(st, acts[0]);
      RunKeepsHeldOrDone(Step(st, acts[0]), acts[1..]);
    }
  }

  /**
   * Duplicates, exactly: in any run, a poll fetches an event that was fetched before if and
   * only if another poll in progress still holds it. Polls run one at a time never do.
   */
  lemma FetchedTwiceExactly(acts: seq<Action>, p: PollerId, limit: nat, ids: seq<EventId>, id: EventId)
    requires IsRun(INITIAL, acts) && Enabled(After(INITIAL, acts), Find(p, limit, ids)) && id in ids
    ensures id in After(INITIAL, acts).fetched <==> InProgress(After(INITIAL, acts), id)
    ensures After(INITIAL, acts).held == map[] ==> id !in After(INITIAL, acts).fetched
  {
    RunLosesNothing(INITIAL, acts);
    RunKeepsHeldOrDone(INITIAL, acts);
    var st := After(INITIAL, acts);
    assert id in SetOf(ids);
    if InProgress(st, id) {
      var q :| q in st.held && id in st.held[q];
      assert id in SetOf(st.held[q]);
    }
  }

  // ------------------------------------------------------------------
  // Polls one at a time
  // ------------------------------------------------------------------

  /** Consecutive polls, each marked before the next begins, with no new records. */
  ghost predicate ArePolls(rows: Table, limit: nat, batches: seq<seq<EventId>>)
    decreases |batches|
  {
    batches == [] || (IsFound(rows, limit, batches[0]) && ArePolls(Marked(rows, batches[0]), limit, batches[1..]))
  }

  function Joined(batches: seq<seq<EventId>>): seq<EventId> {
    if batches == [] then [] else batches[0] + Joined(batches[1..])
  }

  /** The polls needed for `n` events: n divided by the limit, rounded up. */
  function PollsFor(n: nat, limit: nat): nat
    requires limit > 0
  {
    (n + limit - 1) / limit
  }

  lemma BatchSize(rows: Table, limit: nat, ids: seq<EventId>)
    requires IsFound(rows, limit, ids)
    ensures |Unread(Marked(rows, ids))| == |Unread(rows)| - |ids|
  {
    DistinctSize(ids);
  }

  lemma OnePollFewer(n: nat, limit: nat)
    requires limit > 0 && n > 0
    ensures PollsFor(n, limit) == 1 + PollsFor(n - Min(limit, n), limit)
  {
    if n <= limit {
      assert n + limit - 1 == limit + (n - 1);
      DivOf(n - 1, 1, limit);
      DivOf(limit - 1, 0, limit);
    } else {
      var q := (n - limit + limit - 1) / limit;
      var r := (n - 1) % limit;
      assert n - 1 == q * limit + r;
      DivOf(r, q + 1, limit);
    }
  }

  lemma MulOrder(a: nat, b: nat, d: nat)
    requires a < b
    ensures a * d + d <= b * d
  {
    assert b * d == a * d + (b - a) * d;
    assert (b - a) * d == d + (b - a - 1) * d;
  }

  lemma DivOf(r: nat, q: nat, d: nat)
    requires r < d
    ensures (q * d + r) / d == q
  {
    var x := (q * d + r) / d;
    if x > q {
      MulOrder(q, x, d);
    } else if x < q {
      MulOrder(x, q, d);
    }
  }

  lemma NoPolls(limit: nat)
    requires limit > 0
    ensures PollsFor(0, limit) == 0
  {
    DivOf(limit - 1, 0, limit);
  }

  /** A found batch, followed by events that were unread behind it. */
  lemma BatchThenRest(rows: Table, limit: nat, ids: seq<EventId>, more: seq<EventId>)
    requires IsFound(rows, limit, ids)
    requires Distinct(more) && SetOf(more) <= Unread(Marked(rows, ids)) && InOrder(Marked(rows, ids), more)
    ensures SetOf(ids + more) == SetOf(ids) + SetOf(more)
    ensures Distinct(ids + more) && InOrder(rows, ids + more)
  {
    forall i, j | 0 <= i < j < |ids + more|
      ensures (ids + more)[i] != (ids + more)[j]
      ensures (ids + more)[i] in rows && (ids + more)[j] in rows
      ensures rows[(ids + more)[i]].occurredAt <= rows[(ids + more)[j]].occurredAt
    {
      if i < |ids| {
        assert ids[i] in SetOf(ids);
      }
      if j >= |ids| {
        assert more[j - |ids|] in SetOf(more);
      }
      if i >= |ids| {
        assert more[i - |ids|] in SetOf(more);
      }
    }
  }

  /** With no new records, exactly the first ceil(n / limit) of any number of polls are non-empty. */
  lemma {:induction false} NonEmptyPolls(rows: Table, limit: nat, batches: seq<seq<EventId>>)
    requires limit > 0 && ArePolls(rows, limit, batches)
    ensures forall k :: 0 <= k < |batches| ==> (batches[k] != [] <==> k < PollsFor(|Unread(rows)|, limit))
    decreases |batches|
  {
    if batches != [] {
      var n := |Unread(rows)|;
      NonEmptyPolls(Marked(rows, batches[0]), limit, batches[1..]);
      BatchSize(rows, limit, batches[0]);
      NoPolls(limit);
      if n > 0 {
        OnePollFewer(n, limit);
      }
      forall k | 0 <= k < |batches|
        ensures batches[k] != [] <==> k < PollsFor(n, limit)
      {
        assert k > 0 ==> batches[k] == batches[1..][k - 1];
      }
    }
  }

  /**
   * Polls run one at a time: no event comes twice, only unread ones come, ordered by time
   * across all batches; and once there have been ceil(n / limit) polls, all n have come.
   */
  lemma {:induction false} PollsDrain(rows: Table, limit: nat, batches: seq<seq<EventId>>)
    requires limit > 0 && ArePolls(rows, limit, batches)
    ensures SetOf(Joined(batches)) <= Unread(rows) && Distinct(Joined(batches)) && InOrder(rows, Joined(batches))
    ensures |batches| >= PollsFor(|Unread(rows)|, limit) ==> SetOf(Joined(batches)) == Unread(rows)
    decreases |batches|
  {
    var n := |Unread(rows)|;
    if n > 0 {
      OnePollFewer(n, limit);
    }
    if batches != [] {
      var ids := batches[0];
      PollsDrain(Marked(rows, ids), limit, batches[1..]);
      BatchSize(rows, limit, ids);
      NoPolls(limit);
      BatchThenRest(rows, limit, ids, Joined(batches[1..]));
    }
  }
}
