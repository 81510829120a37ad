/** The scanner for `PEO` fence records in an ASCII field list. */
module PeoFences {
  import opened Wrappers

  /** A comma-separated field, seen through `Number()`: the record marker, a finite number, or anything else. */
  datatype Field = Marker | Finite(x: real) | Other(text: string)

  datatype Point = Point(longitude: real, latitude: real)

  datatype Fence = Fence(
    peoId: real, mode: real, startPoint: real, endPoint: real, points: seq<Point>,
    checkIntervalSeconds: real, overSpeedAlarmMode: real, overSpeedThresholdKmh: real, overSpeedDurationSeconds: real)

  datatype Warning = Malformed(at: nat) | CoordinatesTruncated(at: nat) | TrailerTruncated(at: nat)

  /** `Number(fields[i])`, if finite; reading past the end gives `NaN`. */
  function NumberAt(fields: seq<Field>, i: nat): Option<real> {
    if i < |fields| && fields[i].Finite? then Some(fields[i].x) else None
  }

  predicate FourNumbers(fields: seq<Field>, i: nat) {
    && NumberAt(fields, i).Some? && NumberAt(fields, i + 1).Some?
    && NumberAt(fields, i + 2).Some? && NumberAt(fields, i + 3).Some?
  }

  // ------------------------------------------------------------------
  // The scan
  // ------------------------------------------------------------------

  datatype PointList = PointList(points: seq<Point>, cursor: nat, truncated: bool, turns: nat)

  /** The point loop: up to `count` pairs from `cursor` on. `turns` counts its iterations. */
  function ReadPoints(fields: seq<Field>, cursor: nat, p: nat, count: real): (r: PointList)
    ensures cursor <= r.cursor && r.cursor == cursor + 2 * |r.points|
    ensures r.turns == |r.points| + if r.truncated then 1 else 0
    ensures r.points != [] ==> r.cursor <= |fields|
    decreases |fields| - cursor
  {
    if p as real >= count then PointList([], cursor, false, 0)
    else if NumberAt(fields, cursor).None? || NumberAt(fields, cursor + 1).None? then PointList([], cursor, true, 1)
    else
      var r := ReadPoints(fields, cursor + 2, p + 1, count);
      r.(points := [Point(fields[cursor].x, fields[cursor + 1].x)] + r.points, turns := r.turns + 1)
  }

  datatype Scan = Scan(fences: seq<Fence>, warnings: seq<Warning>, turns: nat)

  function PointCount(fields: seq<Field>, i: nat): real
    requires FourNumbers(fields, i + 1)
  {
    NumberAt(fields, i + 4).value - NumberAt(fields, i + 3).value + 1.0
  }

  predicate WellFormedHead(fields: seq<Field>, i: nat) {
    FourNumbers(fields, i + 1) && PointCount(fields, i) >= 0.0
  }

  function FenceAt(fields: seq<Field>, i: nat, points: seq<Point>, cursor: nat): Fence
    requires FourNumbers(fields, i + 1) && FourNumbers(fields, cursor)
  {
    Fence(NumberAt(fields, i + 1).value, NumberAt(fields, i + 2).value, NumberAt(fields, i + 3).value,
          NumberAt(fields, i + 4).value,
          points,
          NumberAt(fields, cursor).value, NumberAt(fields, cursor + 1).value,
          NumberAt(fields, cursor + 2).value, NumberAt(fields, cursor + 3).value)
  }

  function ScanFrom(fields: seq<Field>, i: nat): Scan
    decreases |fields| - i
  {
    if i >= |fields| then Scan([], [], 0)
    else if !fields[i].Marker? then ScanFrom(fields, i + 1)
    else if !WellFormedHead(fields, i) then Scan([], [Malformed(i)], 0)
    else
      var pts := ReadPoints(fields, i + 5, 0, PointCount(fields, i));
      if pts.truncated then Scan([], [CoordinatesTruncated(pts.cursor)], pts.turns)
      else if !FourNumbers(fields, pts.cursor) then Scan([], [TrailerTruncated(pts.cursor)], pts.turns)
      else
        var r := ScanFrom(fields, pts.cursor + 4);
        Scan([FenceAt(fields, i, pts.points, pts.cursor)] + r.fences, r.warnings, pts.turns + r.turns)
  }

  /** Whatever start and end a record declares, the point loop's iterations are bounded by the fields left. */
  lemma {:induction false} TurnsBounded(fields: seq<Field>, i: nat)
    ensures ScanFrom(fields, i).turns <= if i < |fields| then |fields| - i else 0
    decreases |fields| - i
  {
    if i < |fields| {
      if !fields[i].Marker? {
        TurnsBounded(fields, i + 1);
      } else if WellFormedHead(fields, i) {
        assert NumberAt(fields, i + 4).Some?;
        var pts := ReadPoints(fields, i + 5, 0, PointCount(fields, i));
        if !pts.truncated && FourNumbers(fields, pts.cursor) {
          assert NumberAt(fields, pts.cursor + 3).Some?;
          TurnsBounded(fields, pts.cursor + 4);
        }
      }
    }
  }

  /** `parsePeoFenceList` as written: nested index loops with early exits. */
  method ParsePeoFenceList(fields: seq<Field>) returns (fences: seq<Fence>, warnings: seq<Warning>, turns: nat)
    ensures Scan(fences, warnings, turns) == ScanFrom(fields, 0)
    ensures turns <= |fields|
  {
    fences, warnings, turns := [], [], 0;
    TurnsBounded(fields, 0);
    var i := 0;
    while i < |fields|
      invariant warnings == []
      invariant Joins(ScanFrom(fields, 0), fences, [], turns, ScanFrom(fields, i))
      decreases |fields| - i
    {
      if fields[i] != Marker {
        i := i + 1;
        continue;
      }
      if !WellFormedHead(fields, i) {
        warnings := warnings + [Malformed(i)];
        assert fences + [] == fences;
        break;
      }
      var points, cursor, truncated, iterations := ReadPointList(fields, i + 5, PointCount(fields, i));
      turns := turns + iterations;
      if truncated {
        warnings := warnings + [CoordinatesTruncated(cursor)];
        assert fences + [] == fences;
        break;
      }
      if !FourNumbers(fields, cursor) {
        warnings := warnings + [TrailerTruncated(cursor)];
        assert fences + [] == fences;
        break;
      }
      ghost var next := FenceAt(fields, i, points, cursor);
      assert fences + ([next] + ScanFrom(fields, cursor + 4).fences) ==
             (fences + [next]) + ScanFrom(fields, cursor + 4).fences;
      fences := fences + [FenceAt(fields, i, points, cursor)];
      i := cursor + 4;
    }
    assert warnings == [] ==> fences + [] == fences;
  }

  /** The inner loop. */
  method ReadPointList(fields: seq<Field>, start: nat, pointCount: real)
    returns (points: seq<Point>, cursor: nat, truncated: bool, turns: nat)
    ensures PointList(points, cursor, truncated, turns) == ReadPoints(fields, start, 0, pointCount)
  {
    ghost var all := ReadPoints(fields, start, 0, pointCount);
    points, cursor, truncated, turns := [], start, false, 0;
    var p := 0;
    while p as real < pointCount
      invariant turns == p && !truncated
      invariant PointsJoin(all, points, p, ReadPoints(fields, cursor, p, pointCount))
      decreases |fields| - cursor
    {
      turns := turns + 1;
      if NumberAt(fields, cursor).None? || NumberAt(fields, cursor + 1).None? {
        truncated := true;
        PointsJoinEnd(all, points, p, ReadPoints(fields, cursor, p, pointCount));
        return;
      }
      var point := Point(fields[cursor].x, fields[cursor + 1].x);
      PointsJoinStep(all, points, p, point, ReadPoints(fields, cursor + 2, p + 1, pointCount));
      points := points + [point];
      cursor := cursor + 2;
      p := p + 1;
    }
    PointsJoinEnd(all, points, p, ReadPoints(fields, cursor, p, pointCount));
  }

  /** `points` read in `turns` iterations, and `rest` still to come. */
  ghost predicate PointsJoin(all: PointList, points: seq<Point>, turns: nat, rest: PointList) {
    all == PointList(points + rest.points, rest.cursor, rest.truncated, turns + rest.turns)
  }

  lemma PointsJoinStep(all: PointList, points: seq<Point>, turns: nat, point: Point, rest: PointList)
    requires PointsJoin(all, points, turns, rest.(points := [point] + rest.points, turns := rest.turns + 1))
    ensures PointsJoin(all, points + [point], turns + 1, rest)
  {
    assert points + ([point] + rest.points) == (points + [point]) + rest.points;
  }

  lemma PointsJoinEnd(all: PointList, points: seq<Point>, turns: nat, rest: PointList)
    requires PointsJoin(all, points, turns, rest) && rest.points == []
    ensures all == PointList(points, rest.cursor, rest.truncated, turns + rest.turns)
  {
    assert points + [] == points;
  }

  ghost predicate Joins(whole: Scan, fences: seq<Fence>, warnings: seq<Warning>, turns: nat, rest: Scan) {
    whole == Scan(fences + rest.fences, rest.warnings, turns + rest.turns)
  }

  // ------------------------------------------------------------------
  // Round trip and truncation
  // ------------------------------------------------------------------

  /** What a field list is made of: fence records, with any other fields around them. */
  datatype Item = Noise(field: Field) | Record(fence: Fence)

  /** A record as many points as its start and end announce. */
  ghost predicate Consistent(f: Fence) {
    var count := f.endPoint - f.startPoint + 1.0;
    0.0 <= count <= |f.points| as real < count + 1.0
  }

  ghost predicate Sound(x: Item) {
    if x.Noise? then !x.field.Marker? else Consistent(x.fence)
  }

  ghost predicate AllSound(items: seq<Item>) {
    forall x :: x in items ==> Sound(x)
  }

  function EncodePoints(points: seq<Point>): (r: seq<Field>)
    ensures |r| == 2 * |points|
  {
    if points == [] then [] else [Finite(points[0].longitude), Finite(points[0].latitude)] + EncodePoints(points[1..])
  }

  function HeadOf(f: Fence): seq<Field> {
    [Marker, Finite(f.peoId), Finite(f.mode), Finite(f.startPoint), Finite(f.endPoint)]
  }

  function TrailerOf(f: Fence): seq<Field> {
    [Finite(f.checkIntervalSeconds), Finite(f.overSpeedAlarmMode), Finite(f.overSpeedThresholdKmh),
     Finite(f.overSpeedDurationSeconds)]
  }

  /** The number of fields of an item. */
  function Width(x: Item): nat {
    if x.Noise? then 1 else 9 + 2 * |x.fence.points|
  }

  function EncodeItem(x: Item): (r: seq<Field>)
    ensures |r| == Width(x)
  {
    match x
    case Noise(field) => [field]
    case Record(f) => HeadOf(f) + (EncodePoints(f.points) + TrailerOf(f))
  }

  function EncodeItems(items: seq<Item>): seq<Field> {
    if items == [] then [] else EncodeItem(items[0]) + EncodeItems(items[1..])
  }

  function Own(x: Item): seq<Fence> {
    if x.Record? then [x.fence] else []
  }

  /** The fences wholly inside the first `k` fields. */
  function Whole(items: seq<Item>, k: nat): seq<Fence> {
    if items == [] || k < Width(items[0]) then []
    else Own(items[0]) + Whole(items[1..], k - Width(items[0]))
  }

  /** Whether a cut after `k` fields goes through a record, behind its marker. */
  predicate CutsRecord(items: seq<Item>, k: nat) {
    items != [] &&
    if k < Width(items[0]) then k > 0 else CutsRecord(items[1..], k - Width(items[0]))
  }

  /** At `i`, the fields hold the first `n` of `e`. */
  ghost predicate Holds(fields: seq<Field>, i: nat, e: seq<Field>, n: nat) {
    n <= |e| && i + n <= |fields| && forall j :: 0 <= j < n ==> fields[i + j] == e[j]
  }

  /** The first `n` of `x + y`, in parts. */
  ghost predicate HoldsBoth(fields: seq<Field>, i: nat, x: seq<Field>, y: seq<Field>, n: nat) {
    if n < |x| then Holds(fields, i, x, n) else Holds(fields, i, x, |x|) && Holds(fields, i + |x|, y, n - |x|)
  }

  lemma HoldsPart(fields: seq<Field>, i: nat, x: seq<Field>, y: seq<Field>, n: nat)
    requires Holds(fields, i, x + y, n)
    ensures HoldsBoth(fields, i, x, y, n)
  {
    forall j | 0 <= j < n - |x|
      ensures fields[i + |x| + j] == y[j]
    {
      assert (x + y)[|x| + j] == y[j];
    }
    assert forall j :: 0 <= j < |x| ==> (x + y)[j] == x[j];
  }

  /** The points of a record are read back as far as the fields go. */
  lemma {:induction false} PointsRoundTrip(fields: seq<Field>, cursor: nat, p: nat, count: real, points: seq<Point>,
                                           n: nat)
    requires Holds(fields, cursor, EncodePoints(points), n)
    requires n < 2 * |points| ==> |fields| == cursor + n
    requires (p + |points|) as real - 1.0 < count <= (p + |points|) as real
    ensures var r := ReadPoints(fields, cursor, p, count);
            if n == 2 * |points| then r.points == points && r.cursor == cursor + n && !r.truncated else r.truncated
    decreases |points|
  {
    if points != [] {
      var pair := [Finite(points[0].longitude), Finite(points[0].latitude)];
      HoldsPart(fields, cursor, pair, EncodePoints(points[1..]), n);
      if n >= 2 {
        assert fields[cursor + 0] == pair[0] && fields[cursor + 1] == pair[1];
        PointsRoundTrip(fields, cursor + 2, p + 1, count, points[1..], n - 2);
        assert points == [points[0]] + points[1..];
      }
    }
  }

  lemma HeadFields(fields: seq<Field>, i: nat, f: Fence)
    requires Consistent(f) && Holds(fields, i, HeadOf(f), 5)
    ensures fields[i] == Marker && WellFormedHead(fields, i) && PointCount(fields, i) == f.endPoint - f.startPoint + 1.0
    ensures fields[i + 1] == Finite(f.peoId) && fields[i + 2] == Finite(f.mode)
    ensures fields[i + 3] == Finite(f.startPoint) && fields[i + 4] == Finite(f.endPoint)
  {
    var h := HeadOf(f);
    assert fields[i + 0] == h[0] && fields[i + 1] == h[1] && fields[i + 2] == h[2] && fields[i + 3] == h[3] &&
           fields[i + 4] == h[4];
  }

  lemma TrailerFields(fields: seq<Field>, c: nat, f: Fence)
    requires Holds(fields, c, TrailerOf(f), 4)
    ensures FourNumbers(fields, c)
    ensures fields[c] == Finite(f.checkIntervalSeconds) && fields[c + 1] == Finite(f.overSpeedAlarmMode)
    ensures fields[c + 2] == Finite(f.overSpeedThresholdKmh) && fields[c + 3] == Finite(f.overSpeedDurationSeconds)
  {
    var t := TrailerOf(f);
    assert fields[c + 0] == t[0] && fields[c + 1] == t[1] && fields[c + 2] == t[2] && fields[c + 3] == t[3];
  }

  /** A scan that stops in a cut record. */
  ghost predicate Broken(r: Scan) {
    r.fences == [] && |r.warnings| == 1
  }

  /** One record at `i`, of which the first `n` fields are there. */
  lemma RecordScan(fields: seq<Field>, i: nat, f: Fence, n: nat)
    requires Consistent(f) && 0 < n && Holds(fields, i, EncodeItem(Record(f)), n)
    requires n < Width(Record(f)) ==> |fields| == i + n
    ensures var r := ScanFrom(fields, i);
            if n < Width(Record(f)) then Broken(r)
            else var rest := ScanFrom(fields, i + n); r.fences == [f] + rest.fences && r.warnings == rest.warnings
  {
    HoldsPart(fields, i, HeadOf(f), EncodePoints(f.points) + TrailerOf(f), n);
    if n < 5 {
      HeadCut(fields, i, HeadOf(f), n);
    } else {
      HoldsPart(fields, i + 5, EncodePoints(f.points), TrailerOf(f), n - 5);
      RecordBody(fields, i, f, n);
    }
  }

  /** A record cut within its five head fields. */
  lemma HeadCut(fields: seq<Field>, i: nat, head: seq<Field>, n: nat)
    requires |head| == 5 && head[0] == Marker && 0 < n < 5
    requires Holds(fields, i, head, n) && |fields| == i + n
    ensures Broken(ScanFrom(fields, i))
  {
    assert fields[i + 0] == head[0];
    assert NumberAt(fields, i + 4).None?;
  }

  lemma RecordBody(fields: seq<Field>, i: nat, f: Fence, n: nat)
    requires Consistent(f) && 5 <= n <= 9 + 2 * |f.points| && Holds(fields, i, HeadOf(f), 5)
    requires HoldsBoth(fields, i + 5, EncodePoints(f.points), TrailerOf(f), n - 5)
    requires n < 9 + 2 * |f.points| ==> |fields| == i + n
    ensures var r := ScanFrom(fields, i);
            if n < 9 + 2 * |f.points| then Broken(r)
            else var rest := ScanFrom(fields, i + n); r.fences == [f] + rest.fences && r.warnings == rest.warnings
  {
    HeadFields(fields, i, f);
    var k := 2 * |f.points|;
    PointsRoundTrip(fields, i + 5, 0, PointCount(fields, i), f.points, if n - 5 < k then n - 5 else k);
    if n == 9 + k {
      TrailerFields(fields, i + 5 + k, f);
    } else if n >= 5 + k {
      assert NumberAt(fields, i + 5 + k + 3).None?;
    }
  }

  lemma ItemScan(fields: seq<Field>, i: nat, x: Item, n: nat)
    requires Sound(x) && 0 < n && Holds(fields, i, EncodeItem(x), n)
    requires n < Width(x) ==> |fields| == i + n
    ensures n < Width(x) ==> Broken(ScanFrom(fields, i))
    ensures n == Width(x) ==> ItemThen(ScanFrom(fields, i), x, ScanFrom(fields, i + n))
  {
    if x.Record? {
      RecordScan(fields, i, x.fence, n);
    } else {
      assert fields[i + 0] == EncodeItem(x)[0];
    }
  }

  /** A scan that reads item `x` and goes on as `next`. */
  ghost predicate ItemThen(here: Scan, x: Item, next: Scan) {
    here.fences == Own(x) + next.fences && here.warnings == next.warnings
  }

  /** What a scan of the first `k` fields of some items should give. */
  ghost predicate Reads(r: Scan, items: seq<Item>, k: nat) {
    r.fences == Whole(items, k) && |r.warnings| == if CutsRecord(items, k) then 1 else 0
  }

  /**
   * Decoding any whole-field prefix of encoded items returns exactly the fences wholly inside
   * it, with one warning exactly when a record is cut behind its marker.
   */
  lemma {:induction false} PrefixScan(fields: seq<Field>, i: nat, items: seq<Item>, k: nat)
    requires AllSound(items) && Holds(fields, i, EncodeItems(items), k) && |fields| == i + k
    ensures Reads(ScanFrom(fields, i), items, k)
    decreases |items|
  {
    if items != [] && k > 0 {
      var next := i + Width(items[0]);
      FirstItem(fields, i, items, k, next);
      if k < Width(items[0]) {
        ItemCut(ScanFrom(fields, i), items, k);
      } else {
        PrefixScan(fields, next, items[1..], |fields| - next);
        ItemThenRest(ScanFrom(fields, i), items, k, ScanFrom(fields, next));
      }
    }
  }

  /** The first item, cut or whole, and what is behind it. */
  lemma FirstItem(fields: seq<Field>, i: nat, items: seq<Item>, k: nat, next: nat)
    requires items != [] && k > 0 && next == i + Width(items[0])
    requires AllSound(items) && Holds(fields, i, EncodeItems(items), k) && |fields| == i + k
    ensures k < Width(items[0]) ==> Broken(ScanFrom(fields, i))
    ensures k >= Width(items[0]) ==> Holds(fields, next, EncodeItems(items[1..]), |fields| - next)
    ensures k >= Width(items[0]) ==> ItemThen(ScanFrom(fields, i), items[0], ScanFrom(fields, next))
  {
    assert items[0] in items;
    ItemAndRest(fields, i, items[0], EncodeItem(items[0]), EncodeItems(items[1..]), k, next);
  }

  lemma ItemAndRest(fields: seq<Field>, i: nat, x: Item, e: seq<Field>, rest: seq<Field>, k: nat, next: nat)
    requires Sound(x) && e == EncodeItem(x) && next == i + |e|
    requires 0 < k && Holds(fields, i, e + rest, k) && |fields| == i + k
    ensures k < |e| ==> Broken(ScanFrom(fields, i))
    ensures k >= |e| ==> Holds(fields, next, rest, |fields| - next)
    ensures k >= |e| ==> ItemThen(ScanFrom(fields, i), x, ScanFrom(fields, next))
  {
    HoldsPart(fields, i, e, rest, k);
    ItemScan(fields, i, x, if k < |e| then k else |e|);
  }

  lemma ItemCut(here: Scan, items: seq<Item>, k: nat)
    requires items != [] && 0 < k < Width(items[0])
    ensures Broken(here) ==> Reads(here, items, k)
  {}

  lemma ItemThenRest(here: Scan, items: seq<Item>, k: nat, rest: Scan)
    requires items != [] && k >= Width(items[0])
    ensures ItemThen(here, items[0], rest) && Reads(rest, items[1..], k - Width(items[0])) ==> Reads(here, items, k)
  {}

  function FencesOf(items: seq<Item>): seq<Fence> {
    if items == [] then [] else Own(items[0]) + FencesOf(items[1..])
  }

  lemma {:induction false} WholeIsAll(items: seq<Item>)
    ensures Whole(items, |EncodeItems(items)|) == FencesOf(items) && !CutsRecord(items, |EncodeItems(items)|)
  {
    if items != [] {
      WholeIsAll(items[1..]);
    }
  }

  /**
   * Round trip: any fences, with any fields that are not the marker around them, decode to themselves
   * without warnings.
   */
  lemma PeoRoundTrip(items: seq<Item>)
    requires AllSound(items)
    ensures var r := ScanFrom(EncodeItems(items), 0); r.fences == FencesOf(items) && r.warnings == []
  {
    var fields := EncodeItems(items);
    PrefixScan(fields, 0, items, |fields|);
    WholeIsAll(items);
  }

  // ------------------------------------------------------------------
  // Where the fences of any field list lie
  // ------------------------------------------------------------------

  ghost predicate IsNumber(fields: seq<Field>, i: nat, x: real) {
    i < |fields| && fields[i] == Finite(x)
  }

  /** Field by field: marker, id, mode, start, end, as many coordinate pairs as they announce, four settings. */
  ghost predicate RecordAt(fields: seq<Field>, i: nat, f: Fence) {
    && i < |fields| && fields[i].Marker?
    && IsNumber(fields, i + 1, f.peoId) && IsNumber(fields, i + 2, f.mode)
    && IsNumber(fields, i + 3, f.startPoint) && IsNumber(fields, i + 4, f.endPoint)
    && PairsAt(fields, i + 5, f.points)
    && f.endPoint - f.startPoint >= -1.0
    && |f.points| as real - 1.0 < f.endPoint - f.startPoint + 1.0 <= |f.points| as real
    && var c := i + 5 + 2 * |f.points|;
       && IsNumber(fields, c, f.checkIntervalSeconds) && IsNumber(fields, c + 1, f.overSpeedAlarmMode)
       && IsNumber(fields, c + 2, f.overSpeedThresholdKmh) && IsNumber(fields, c + 3, f.overSpeedDurationSeconds)
  }

  /** Longitude, then latitude. */
  ghost predicate PairsAt(fields: seq<Field>, c: nat, points: seq<Point>) {
    forall j :: 0 <= j < |points| ==> PairAt(fields, c + 2 * j, points[j])
  }

  ghost predicate PairAt(fields: seq<Field>, c: nat, p: Point) {
    IsNumber(fields, c, p.longitude) && IsNumber(fields, c + 1, p.latitude)
  }

  ghost predicate AnyNumber(fields: seq<Field>, i: nat) {
    i < |fields| && fields[i].Finite?
  }

  ghost predicate AnyPair(fields: seq<Field>, c: nat) {
    AnyNumber(fields, c) && AnyNumber(fields, c + 1)
  }

  /** The record whose marker is at `i` cannot be read, and the warning says where. */
  ghost predicate FailsAt(fields: seq<Field>, i: nat, w: Warning) {
    && i < |fields| && fields[i].Marker?
    && var whole := AnyNumber(fields, i + 1) && AnyNumber(fields, i + 2) && AnyNumber(fields, i + 3) &&
                    AnyNumber(fields, i + 4) && fields[i + 4].x - fields[i + 3].x + 1.0 >= 0.0;
       match w
       case Malformed(at) => at == i && !whole
       case CoordinatesTruncated(c) =>
         && whole && c >= i + 5 && (c - i - 5) % 2 == 0 && !AnyPair(fields, c)
         && ((c - i - 5) / 2) as real < fields[i + 4].x - fields[i + 3].x + 1.0
         && forall j :: 0 <= j < (c - i - 5) / 2 ==> AnyPair(fields, i + 5 + 2 * j)
       case TrailerTruncated(c) =>
         && whole && c >= i + 5 && (c - i - 5) % 2 == 0
         && ((c - i - 5) / 2) as real >= fields[i + 4].x - fields[i + 3].x + 1.0
         && !(AnyNumber(fields, c) && AnyNumber(fields, c + 1) && AnyNumber(fields, c + 2) && AnyNumber(fields, c + 3))
         && forall j :: 0 <= j < (c - i - 5) / 2 ==> AnyPair(fields, i + 5 + 2 * j)
  }

  function RecordEnd(i: nat, f: Fence): nat {
    i + 9 + 2 * |f.points|
  }

  lemma {:induction false} PointsLie(fields: seq<Field>, c: nat, p: nat, count: real)
    ensures var r := ReadPoints(fields, c, p, count);
            && PairsAt(fields, c, r.points)
            && (forall j :: 0 <= j < |r.points| ==> AnyPair(fields, c + 2 * j))
            && (r.truncated ==> !AnyPair(fields, r.cursor) && (p + |r.points|) as real < count)
            && (!r.truncated ==> (p + |r.points|) as real >= count)
            && (|r.points| > 0 ==> (p + |r.points|) as real - 1.0 < count)
    decreases |fields| - c
  {
    if !(p as real >= count || NumberAt(fields, c).None? || NumberAt(fields, c + 1).None?) {
      PointsLie(fields, c + 2, p + 1, count);
      var r, more := ReadPoints(fields, c, p, count), ReadPoints(fields, c + 2, p + 1, count);
      assert r.points == [Point(fields[c].x, fields[c + 1].x)] + more.points;
      forall j | 0 <= j < |r.points|
        ensures PairAt(fields, c + 2 * j, r.points[j]) && AnyPair(fields, c + 2 * j)
      {
        if j > 0 {
          assert c + 2 * j == (c + 2) + 2 * (j - 1);
          assert PairAt(fields, (c + 2) + 2 * (j - 1), more.points[j - 1]);
        }
      }
    }
  }

  /** What the scan finds in any field list, field by field. */
  ghost predicate Found(fields: seq<Field>, i: nat, r: Scan, at: seq<nat>) {
    && |at| == |r.fences|
    && (forall k :: 0 <= k < |at| ==> at[k] >= i && RecordAt(fields, at[k], r.fences[k]))
    && (forall k :: 0 < k < |at| ==> at[k] >= RecordEnd(at[k - 1], r.fences[k - 1]))
    && |r.warnings| <= 1
  }

  /** Marker `m` is inside one of the records. */
  ghost predicate Inside(at: seq<nat>, fences: seq<Fence>, m: nat) {
    exists k :: 0 <= k < |at| && k < |fences| && at[k] <= m < RecordEnd(at[k], fences[k])
  }

  /**
   * The fences of any field list lie in it field by field, one behind the other. Without a warning every
   * marker belongs to one of them; a warning means that the first marker behind them starts no record.
   */
  lemma {:induction false} FencesLie(fields: seq<Field>, i: nat) returns (at: seq<nat>, stop: nat)
    ensures Found(fields, i, ScanFrom(fields, i), at) && stop >= i
    ensures forall m :: i <= m < stop && m < |fields| && fields[m].Marker? ==> Inside(at, ScanFrom(fields, i).fences, m)
    ensures ScanFrom(fields, i).warnings == [] ==> stop >= |fields|
    ensures ScanFrom(fields, i).warnings != [] ==> FailsAt(fields, stop, ScanFrom(fields, i).warnings[0])
    decreases |fields| - i
  {
    if i >= |fields| {
      at, stop := [], i;
    } else if !fields[i].Marker? {
      at, stop := FencesLie(fields, i + 1);
      FoundEarlier(fields, i, ScanFrom(fields, i + 1), at);
      assert ScanFrom(fields, i) == ScanFrom(fields, i + 1);
    } else if !ReadsRecord(fields, i) {
      FailsHere(fields, i);
      at, stop := [], i;
    } else {
      var f, next := RecordHere(fields, i);
      var more;
      more, stop := FencesLie(fields, next);
      at := [i] + more;
      OneMoreFence(fields, i, f, next, ScanFrom(fields, next), ScanFrom(fields, i), more, stop);
    }
  }

  lemma FoundEarlier(fields: seq<Field>, i: nat, r: Scan, at: seq<nat>)
    requires Found(fields, i + 1, r, at)
    ensures Found(fields, i, r, at)
  {}

  /** The record whose marker is at `i` is read to its end. */
  predicate ReadsRecord(fields: seq<Field>, i: nat) {
    && WellFormedHead(fields, i)
    && var pts := ReadPoints(fields, i + 5, 0, PointCount(fields, i));
       !pts.truncated && FourNumbers(fields, pts.cursor)
  }

  lemma RecordHere(fields: seq<Field>, i: nat) returns (f: Fence, next: nat)
    requires i < |fields| && fields[i].Marker? && ReadsRecord(fields, i)
    ensures RecordAt(fields, i, f) && next == RecordEnd(i, f)
    ensures var r, rest := ScanFrom(fields, i), ScanFrom(fields, next);
            r.fences == [f] + rest.fences && r.warnings == rest.warnings
  {
    var pts := ReadPoints(fields, i + 5, 0, PointCount(fields, i));
    PointsLie(fields, i + 5, 0, PointCount(fields, i));
    f, next := FenceAt(fields, i, pts.points, pts.cursor), pts.cursor + 4;
  }

  lemma FailsHere(fields: seq<Field>, i: nat)
    requires i < |fields| && fields[i].Marker? && !ReadsRecord(fields, i)
    ensures var r := ScanFrom(fields, i); r.fences == [] && |r.warnings| == 1 && FailsAt(fields, i, r.warnings[0])
  {
    if WellFormedHead(fields, i) {
      PointsLie(fields, i + 5, 0, PointCount(fields, i));
    }
  }

  lemma OneMoreFence(fields: seq<Field>, i: nat, f: Fence, next: nat, rest: Scan, r: Scan, more: seq<nat>, stop: nat)
    requires RecordAt(fields, i, f) && next == RecordEnd(i, f) && Found(fields, next, rest, more)
    requires r.fences == [f] + rest.fences && r.warnings == rest.warnings
    requires forall m :: next <= m < stop && m < |fields| && fields[m].Marker? ==> Inside(more, rest.fences, m)
    ensures Found(fields, i, r, [i] + more)
    ensures forall m :: i <= m < stop && m < |fields| && fields[m].Marker? ==> Inside([i] + more, r.fences, m)
  {
    FoundCons(fields, i, f, next, rest, r, more);
    forall m | i <= m < stop && m < |fields| && fields[m].Marker?
      ensures Inside([i] + more, r.fences, m)
    {
      InsideCons(i, f, next, rest.fences, more, m);
    }
  }

  lemma FoundCons(fields: seq<Field>, i: nat, f: Fence, next: nat, rest: Scan, r: Scan, more: seq<nat>)
    requires RecordAt(fields, i, f) && next == RecordEnd(i, f) && Found(fields, next, rest, more)
    requires r.fences == [f] + rest.fences && r.warnings == rest.warnings
    ensures Found(fields, i, r, [i] + more)
  {
    var at := [i] + more;
    forall k | 0 < k < |at|
      ensures at[k] >= i && RecordAt(fields, at[k], r.fences[k])
      ensures at[k] >= RecordEnd(at[k - 1], r.fences[k - 1])
    {
      var n := k - 1;
      assert at[k] == more[n] && r.fences[k] == rest.fences[n] && RecordAt(fields, more[n], rest.fences[n]);
      if n > 0 {
        assert at[n] == more[n - 1] && r.fences[n] == rest.fences[n - 1];
      }
    }
  }

  lemma InsideCons(i: nat, f: Fence, next: nat, rest: seq<Fence>, more: seq<nat>, m: nat)
    requires next == RecordEnd(i, f) && i <= m && (m >= next ==> Inside(more, rest, m))
    ensures Inside([i] + more, [f] + rest, m)
  {
    var at, fences := [i] + more, [f] + rest;
    if m < next {
      assert at[0] <= m < RecordEnd(at[0], fences[0]);
    } else {
      var k :| 0 <= k < |more| && k < |rest| && more[k] <= m < RecordEnd(more[k], rest[k]);
      assert at[k + 1] == more[k] && fences[k + 1] == rest[k];
    }
  }
}
