/** Report persistence: partial patches of the device snapshot, and the report rows beside it. */
module DeviceStore {
  import opened Bytes
  import opened Wrappers
  import opened Schema
  import opened ReportLayout
  import AsciiZone
  import FrameParser

  type Imei = string
  type Time = int

  // ------------------------------------------------------------------
  // What a decoded report carries for the snapshot
  // ------------------------------------------------------------------

  datatype Fix = Fix(latitude: Option<int>, longitude: Option<int>, altitudeM: Option<int>, speedKmh: Option<int>)

  datatype Battery = Battery(levelPercent: int, voltageMv: int)

  /** `savedAt` is the clock when the save began. */
  datatype Report = Report(
    imei: Imei, kind: FrameParser.Kind, generatedAt: Option<Buffer>, savedAt: Time,
    eventType: int, primaryFix: Option<Fix>, battery: Option<Battery>, networkType: Option<int>)

  /** The decoded field of this mask bit. */
  function Find(entries: seq<Entry>, bit: nat): Option<Value> {
    if entries == [] then None
    else if entries[0].bit == bit then Some(entries[0].value)
    else Find(entries[1..], bit)
  }

  function NumberOf(v: Option<Value>): Option<int> {
    if v.Some? && v.value.Num? then Some(v.value.n) else None
  }

  function NumOf(v: Value): int {
    if v.Num? then v.n else 0
  }

  /** The first fix of a decoded GNSS block. */
  function PrimaryFix(gnss: Option<Value>): Option<Fix> {
    if gnss.Some? && gnss.value.Records? && gnss.value.records != [] && gnss.value.records[0].Fields? then
      var fix := gnss.value.records[0].entries;
      Some(Fix(NumberOf(Find(fix, 5)), NumberOf(Find(fix, 6)), NumberOf(Find(fix, 4)), NumberOf(Find(fix, 2))))
    else None
  }

  function BatteryOf(battery: Option<Value>): Option<Battery> {
    if battery.Some? && battery.value.Items? && |battery.value.values| == 2 then
      var voltage, level := NumberOf(Some(battery.value.values[0])), NumberOf(Some(battery.value.values[1]));
      if voltage.Some? && level.Some? then Some(Battery(level.value, voltage.value)) else None
    else None
  }

  predicate HasReport(parsed: FrameParser.ParsedFrame) {
    && parsed.body.Report? && parsed.body.value.Items? && |parsed.body.value.values| == 4
    && parsed.body.value.values[3].Fields?
  }

  /** What `saveReport` reads off a parsed frame; absent when the frame decoded to no report. */
  function ReportIn(parsed: FrameParser.ParsedFrame, now: Time): (r: Option<Report>)
    ensures r.Some? <==> HasReport(parsed)
    ensures r.Some? ==> r.value.imei == parsed.header.imei
  {
    if HasReport(parsed) then
      var values := parsed.body.value.values;
      Some(ReportOf(parsed.header, parsed.kind, NumOf(values[1]), values[3].entries, now))
    else None
  }

  function ReportOf(header: FrameParser.Header, kind: FrameParser.Kind, eventType: int, entries: seq<Entry>,
                    now: Time): Report
  {
    Report(header.imei, kind, header.generatedAt, now, eventType, PrimaryFix(Find(entries, 3)),
           BatteryOf(Find(entries, 2)), NumberOf(Find(entries, 1)))
  }

  /**
   * A report frame has a report to save exactly when its data zone holds the 8-byte header, however its
   * fields are cut.
   */
  lemma SavedExactly(number: AsciiZone.Numbers, kind: FrameParser.Kind, zone: Buffer, parsed: FrameParser.ParsedFrame,
                     now: Time)
    requires FrameParser.IsReport(kind) && parsed.body == FrameParser.ParseBody(number, kind, zone).0
    ensures ReportIn(parsed, now).Some? <==> |zone| >= HEADER_BYTES
  {
    ReportUnfolds(ReportRules(), zone);
  }

  /** Columns of a device row. */
  datatype Column =
    | TcpConnected | LastSeenAt
    | LastReportAt | LastFrameKind | LastEventType | LastEventName
    | LastLatitude | LastLongitude | LastAltitudeM | LastSpeedKmh
    | LastBatteryLevelPercent | LastBatteryVoltageMv | LastNetworkType

  /** `Generated` is a frame's own time bytes; `NameOf` is the looked-up name of an event type. */
  datatype Cell =
    | Flag(on: bool) | Number(n: int) | At(time: Time) | Generated(bytes: Buffer) | OfKind(kind: FrameParser.Kind)
    | NameOf(eventType: int)

  /** A partial row: absent columns are left as they are. */
  type Patch = map<Column, Cell>

  function AsCell(n: Option<int>): Option<Cell> {
    if n.Some? then Some(Number(n.value)) else None
  }

  function ReportTime(generatedAt: Option<Buffer>, now: Time): Cell {
    if generatedAt.Some? then Generated(generatedAt.value) else At(now)
  }

  /** The value a report carries for a column of the snapshot. */
  function CarriedValue(r: Report, c: Column): Option<Cell> {
    match c
    case LastReportAt => Some(ReportTime(r.generatedAt, r.savedAt))
    case LastFrameKind => Some(OfKind(r.kind))
    case LastEventType => Some(Number(r.eventType))
    case LastEventName => Some(NameOf(r.eventType))
    case LastLatitude => if r.primaryFix.Some? then AsCell(r.primaryFix.value.latitude) else None
    case LastLongitude => if r.primaryFix.Some? then AsCell(r.primaryFix.value.longitude) else None
    case LastAltitudeM => if r.primaryFix.Some? then AsCell(r.primaryFix.value.altitudeM) else None
    case LastSpeedKmh => if r.primaryFix.Some? then AsCell(r.primaryFix.value.speedKmh) else None
    case LastBatteryLevelPercent => if r.battery.Some? then Some(Number(r.battery.value.levelPercent)) else None
    case LastBatteryVoltageMv => if r.battery.Some? then Some(Number(r.battery.value.voltageMv)) else None
    case LastNetworkType => AsCell(r.networkType)
    case _ => None
  }

  ghost predicate Carries(patch: Patch, c: Column, v: Option<Cell>) {
    if v.Some? then c in patch && patch[c] == v.value else c !in patch
  }

  predicate IsSnapshot(c: Column) {
    c != TcpConnected && c != LastSeenAt
  }

  /** `patch` sets the snapshot columns exactly to what the report carries. */
  ghost predicate PatchOf(patch: Patch, r: Report) {
    forall c :: IsSnapshot(c) ==> Carries(patch, c, CarriedValue(r, c))
  }

  // ------------------------------------------------------------------
  // The store
  // ------------------------------------------------------------------

  /** A statement; `origin` is the report an upsert was built from, if it was a report. */
  datatype Write =
    | Upsert(imei: Imei, patch: Patch, origin: Option<Report>)
    | Insert(report: Report)

  /**
   * An upsert stems from a report and carries its values, or it is a connection mark and touches no
   * snapshot column.
   */
  ghost predicate Genuine(w: Write) {
    w.Upsert? ==>
      match w.origin
      case Some(r) => r.imei == w.imei && PatchOf(w.patch, r)
      case None => forall c :: c in w.patch ==> !IsSnapshot(c)
  }

  /** The upsert of a report has been executed. */
  ghost predicate Upserted(writes: seq<Write>, r: Report) {
    exists k :: 0 <= k < |writes| && writes[k].Upsert? && writes[k].imei == r.imei && writes[k].origin == Some(r)
  }

  /** Every report row was inserted behind the upsert of its own save, whatever was executed between them. */
  ghost predicate InsertsFollow(writes: seq<Write>) {
    forall j :: 0 <= j < |writes| && writes[j].Insert? ==> Upserted(writes[..j], writes[j].report)
  }

  class PersistenceService {
    var devices: map<Imei, Patch>
    var reports: seq<Report>
    /** Every statement executed, in order. */
    ghost var writes: seq<Write>

    ghost predicate Valid()
      reads this
    {
      && devices == Devices(writes) && reports == Reports(writes)
      && InsertsFollow(writes)
      && forall w :: w in writes ==> Genuine(w)
    }

    constructor ()
      ensures Valid() && writes == []
    {
      devices, reports, writes := map[], [], [];
    }

    /** `INSERT ... ON CONFLICT (imei) DO UPDATE` with the columns of the patch. */
    method UpsertDevice(imei: Imei, patch: Patch, ghost origin: Option<Report>)
      requires Valid() && Genuine(Upsert(imei, patch, origin))
      modifies this
      ensures Valid() && writes == old(writes) + [Upsert(imei, patch, origin)]
      ensures imei in devices
    {
      devices := devices[imei := (if imei in devices then devices[imei] else map[]) + patch];
      AppendWrite(writes, Upsert(imei, patch, origin));
      writes := writes + [Upsert(imei, patch, origin)];
    }

    method MarkDeviceConnected(imei: Imei, now: Time)
      requires Valid()
      modifies this
      ensures Valid()
      ensures writes == old(writes) + [Upsert(imei, map[TcpConnected := Flag(true), LastSeenAt := At(now)], None)]
    {
      UpsertDevice(imei, map[TcpConnected := Flag(true), LastSeenAt := At(now)], None);
    }

    method MarkDeviceDisconnected(imei: Imei)
      requires Valid()
      modifies this
      ensures Valid() && writes == old(writes) + [Upsert(imei, map[TcpConnected := Flag(false)], None)]
    {
      UpsertDevice(imei, map[TcpConnected := Flag(false)], None);
    }

    /** The patch, filled field by field. */
    method BuildPatch(r: Report) returns (patch: Patch)
      ensures PatchOf(patch, r)
      ensures Carries(patch, TcpConnected, Some(Flag(true))) && Carries(patch, LastSeenAt, Some(At(r.savedAt)))
    {
      var head := HeadColumns(r);
      var fixed := AddFix(head, r);
      assert forall c :: IsStatusColumn(c) ==> SameColumn(fixed, head, c);
      patch := AddStatus(fixed, r);
      SnapshotColumns(patch, r, fixed, head);
    }

    method AddFix(before: Patch, r: Report) returns (patch: Patch)
      requires forall c :: IsFixColumn(c) ==> c !in before
      ensures forall c :: IsFixColumn(c) ==> Carries(patch, c, CarriedValue(r, c))
      ensures forall c :: !IsFixColumn(c) ==> SameColumn(patch, before, c)
    {
      patch := before;
      var fix := if r.primaryFix.Some? then r.primaryFix.value else Fix(None, None, None, None);
      if fix.latitude.Some? {
        patch := patch[LastLatitude := Number(fix.latitude.value)];
      }
      if fix.longitude.Some? {
        patch := patch[LastLongitude := Number(fix.longitude.value)];
      }
      if fix.altitudeM.Some? {
        patch := patch[LastAltitudeM := Number(fix.altitudeM.value)];
      }
      if fix.speedKmh.Some? {
        patch := patch[LastSpeedKmh := Number(fix.speedKmh.value)];
      }
      assert Carries(patch, LastLatitude, AsCell(fix.latitude)) && Carries(patch, LastLongitude, AsCell(fix.longitude));
      assert Carries(patch, LastAltitudeM, AsCell(fix.altitudeM)) && Carries(patch, LastSpeedKmh, AsCell(fix.speedKmh));
    }

    method AddStatus(before: Patch, r: Report) returns (patch: Patch)
      requires forall c :: IsStatusColumn(c) ==> c !in before
      ensures forall c :: IsStatusColumn(c) ==> Carries(patch, c, CarriedValue(r, c))
      ensures forall c :: !IsStatusColumn(c) ==> SameColumn(patch, before, c)
    {
      patch := before;
      if r.battery.Some? {
        patch := patch[LastBatteryLevelPercent := Number(r.battery.value.levelPercent)];
        patch := patch[LastBatteryVoltageMv := Number(r.battery.value.voltageMv)];
      }
      if r.networkType.Some? {
        patch := patch[LastNetworkType := Number(r.networkType.value)];
      }
    }

    /** The first half of `saveReport`, up to the answer to its upsert. */
    method UpsertReport(r: Report)
      requires Valid()
      modifies this
      ensures Valid() && Upserted(writes, r)
      ensures |writes| == |old(writes)| + 1 && old(writes) <= writes
      ensures writes[|old(writes)|].Upsert? && writes[|old(writes)|].imei == r.imei &&
              writes[|old(writes)|].origin == Some(r)
    {
      var patch := BuildPatch(r);
      UpsertDevice(r.imei, patch, Some(r));
      assert writes[|old(writes)|] == Upsert(r.imei, patch, Some(r));
    }

    /** The second half, any number of other statements later. */
    method InsertReport(r: Report)
      requires Valid() && Upserted(writes, r)
      modifies this
      ensures Valid() && writes == old(writes) + [Insert(r)]
    {
      reports := reports + [r];
      AppendWrite(writes, Insert(r));
      writes := writes + [Insert(r)];
    }

    /** `saveReport` with nothing between its statements; either of them can be rejected. */
    method SaveReport(parsed: FrameParser.ParsedFrame, now: Time, upsertFails: bool, insertFails: bool)
      returns (saved: bool)
      requires Valid()
      modifies this
      ensures Valid() && (saved <==> ReportIn(parsed, now).Some? && !upsertFails && !insertFails)
      ensures ReportIn(parsed, now).None? || upsertFails ==> writes == old(writes)
      ensures ReportIn(parsed, now).Some? && !upsertFails ==>
                var r := ReportIn(parsed, now).value;
                && |writes| == |old(writes)| + (if saved then 2 else 1) && old(writes) <= writes
                && writes[|old(writes)|].Upsert? && writes[|old(writes)|].imei == parsed.header.imei
                && writes[|old(writes)|].origin == Some(r)
                && (saved ==> writes[|old(writes)| + 1] == Insert(r))
    {
      var report := ReportIn(parsed, now);
      if report.None? || upsertFails {
        return false;
      }
      UpsertReport(report.value);
      if insertFails {
        return false;
      }
      InsertReport(report.value);
      return true;
    }
  }

  /** The columns every report patch sets. */
  function HeadColumns(r: Report): Patch {
    map[TcpConnected := Flag(true), LastSeenAt := At(r.savedAt), LastReportAt := ReportTime(r.generatedAt, r.savedAt),
        LastFrameKind := OfKind(r.kind), LastEventType := Number(r.eventType), LastEventName := NameOf(r.eventType)]
  }

  ghost predicate SameColumn(a: Patch, b: Patch, c: Column) {
    (c in a <==> c in b) && (c in a ==> a[c] == b[c])
  }

  predicate IsFixColumn(c: Column) {
    c == LastLatitude || c == LastLongitude || c == LastAltitudeM || c == LastSpeedKmh
  }

  /** The snapshot columns, group by group. */
  lemma SnapshotColumns(patch: Patch, r: Report, fixed: Patch, head: Patch)
    requires head == HeadColumns(r)
    requires forall c :: !IsFixColumn(c) ==> SameColumn(fixed, head, c)
    requires forall c :: IsFixColumn(c) ==> Carries(fixed, c, CarriedValue(r, c))
    requires forall c :: !IsStatusColumn(c) ==> SameColumn(patch, fixed, c)
    requires forall c :: IsStatusColumn(c) ==> Carries(patch, c, CarriedValue(r, c))
    ensures PatchOf(patch, r)
    ensures Carries(patch, TcpConnected, Some(Flag(true))) && Carries(patch, LastSeenAt, Some(At(r.savedAt)))
  {
    forall c | !IsFixColumn(c) && !IsStatusColumn(c)
      ensures SameColumn(patch, head, c)
    {
      assert SameColumn(patch, fixed, c) && SameColumn(fixed, head, c);
    }
    assert SameColumn(patch, head, TcpConnected) && SameColumn(patch, head, LastSeenAt);
    forall c | IsSnapshot(c)
      ensures Carries(patch, c, CarriedValue(r, c))
    {
      if IsFixColumn(c) {
        assert SameColumn(patch, fixed, c) && Carries(fixed, c, CarriedValue(r, c));
      } else if !IsStatusColumn(c) {
        assert SameColumn(patch, head, c);
      }
    }
  }

  predicate IsStatusColumn(c: Column) {
    c == LastBatteryLevelPercent || c == LastBatteryVoltageMv || c == LastNetworkType
  }

  // ------------------------------------------------------------------
  // Device rows as a fold of patches
  // ------------------------------------------------------------------

  function Devices(writes: seq<Write>): map<Imei, Patch> {
    if writes == [] then map[]
    else
      var before, w := Devices(writes[..|writes| - 1]), writes[|writes| - 1];
      if w.Insert? then before
      else before[w.imei := (if w.imei in before then before[w.imei] else map[]) + w.patch]
  }

  function Reports(writes: seq<Write>): seq<Report> {
    if writes == [] then []
    else Reports(writes[..|writes| - 1]) + (if writes[|writes| - 1].Insert? then [writes[|writes| - 1].report] else [])
  }

  /** A report is stored as many times as it was inserted. */
  lemma {:induction false} RowsAreInserts(writes: seq<Write>, r: Report)
    ensures multiset(Reports(writes))[r] == multiset(writes)[Insert(r)]
  {
    if writes != [] {
      var n := |writes| - 1;
      RowsAreInserts(writes[..n], r);
      assert writes == writes[..n] + [writes[n]];
      assert multiset(writes) == multiset(writes[..n]) + multiset([writes[n]]);
      assert writes[n].Insert? ==> writes[n] == Insert(writes[n].report);
    }
  }

  lemma AppendWrite(writes: seq<Write>, w: Write)
    requires InsertsFollow(writes) && (w.Insert? ==> Upserted(writes, w.report))
    ensures Reports(writes + [w]) == Reports(writes) + (if w.Insert? then [w.report] else [])
    ensures Devices(writes + [w]) ==
            if w.Insert? then Devices(writes)
            else Devices(writes)[w.imei := (if w.imei in Devices(writes) then Devices(writes)[w.imei] else map[]) +
                                 w.patch]
    ensures InsertsFollow(writes + [w])
  {
    var all := writes + [w];
    assert all[..|writes|] == writes;
    forall j | 0 <= j < |all| && all[j].Insert?
      ensures Upserted(all[..j], all[j].report)
    {
      assert j < |writes| ==> all[..j] == writes[..j];
    }
  }

  /** An upserted device has a row from then on. */
  lemma {:induction false} DevicesStay(writes: seq<Write>, k: nat)
    requires k < |writes| && writes[k].Upsert?
    ensures writes[k].imei in Devices(writes)
    decreases |writes|
  {
    if k < |writes| - 1 {
      DevicesStay(writes[..|writes| - 1], k);
    }
  }

  /**
   * Every stored report's IMEI has a device row, however the statements of any number of saves
   * and connection marks interleave, as long as each save inserts behind its own upsert.
   */
  lemma {:induction false} ReportsHaveDevices(writes: seq<Write>, r: Report)
    requires InsertsFollow(writes) && r in Reports(writes)
    ensures r.imei in Devices(writes)
    decreases |writes|
  {
    var n := |writes| - 1;
    if r in Reports(writes[..n]) {
      assert forall j :: 0 <= j < n ==> writes[..n][..j] == writes[..j];
      ReportsHaveDevices(writes[..n], r);
    } else {
      assert Upserted(writes[..n], writes[n].report);
      var k :| 0 <= k < n && writes[k].Upsert? && writes[k].imei == r.imei && writes[k].origin == Some(r);
      DevicesStay(writes, k);
    }
  }

  predicate Sets(w: Write, imei: Imei, c: Column) {
    w.Upsert? && w.imei == imei && c in w.patch
  }

  /** Write `k` is the latest one that sets column `c` of the device. */
  ghost predicate LatestSetter(writes: seq<Write>, imei: Imei, c: Column, k: nat) {
    && k < |writes| && Sets(writes[k], imei, c)
    && forall j :: k < j < |writes| ==> !Sets(writes[j], imei, c)
  }

  function ColumnOf(writes: seq<Write>, imei: Imei, c: Column): Option<Cell> {
    if imei in Devices(writes) && c in Devices(writes)[imei] then Some(Devices(writes)[imei][c]) else None
  }

  /**
   * Last writer wins, per column: a column holds the value of the latest patch that set it, and is empty
   * if none did.
   */
  lemma {:induction false} LastWriterWins(writes: seq<Write>, imei: Imei, c: Column)
    ensures forall k: nat :: LatestSetter(writes, imei, c, k) ==> ColumnOf(writes, imei, c) == Some(writes[k].patch[c])
    ensures (forall k :: 0 <= k < |writes| ==> !Sets(writes[k], imei, c)) ==> ColumnOf(writes, imei, c) == None
  {
    if writes != [] {
      var n := |writes| - 1;
      LastWriterWins(writes[..n], imei, c);
      forall k: nat | LatestSetter(writes, imei, c, k)
        ensures ColumnOf(writes, imei, c) == Some(writes[k].patch[c])
      {
        if k < n {
          assert LatestSetter(writes[..n], imei, c, k);
          assert !Sets(writes[n], imei, c);
        }
      }
    }
  }

  // ------------------------------------------------------------------
  // The snapshot against the reports applied
  // ------------------------------------------------------------------

  /** Write `k` applied a report of the device that carried column `c`. */
  predicate Carried(w: Write, imei: Imei, c: Column) {
    w.Upsert? && w.imei == imei && w.origin.Some? && CarriedValue(w.origin.value, c).Some?
  }

  ghost predicate LatestCarrier(writes: seq<Write>, imei: Imei, c: Column, k: nat) {
    && k < |writes| && Carried(writes[k], imei, c)
    && forall j :: k < j < |writes| ==> !Carried(writes[j], imei, c)
  }

  lemma SetsIffCarried(w: Write, imei: Imei, c: Column)
    requires Genuine(w) && IsSnapshot(c)
    ensures Sets(w, imei, c) <==> Carried(w, imei, c)
    ensures Carried(w, imei, c) ==> w.patch[c] == CarriedValue(w.origin.value, c).value
  {
    if w.Upsert? && w.origin.Some? {
      assert Carries(w.patch, c, CarriedValue(w.origin.value, c));
    }
  }

  /**
   * After any sequence of writes, each snapshot field is its value in the latest applied report
   * that carried it, however many reports and connection marks came between; without any it is empty.
   */
  lemma SnapshotIsLatestCarried(writes: seq<Write>, imei: Imei, c: Column)
    requires (forall w :: w in writes ==> Genuine(w)) && IsSnapshot(c)
    ensures forall k: nat :: LatestCarrier(writes, imei, c, k) ==>
            ColumnOf(writes, imei, c) == CarriedValue(writes[k].origin.value, c)
    ensures (forall k :: 0 <= k < |writes| ==> !Carried(writes[k], imei, c)) ==> ColumnOf(writes, imei, c) == None
  {
    forall k | 0 <= k < |writes|
      ensures Sets(writes[k], imei, c) <==> Carried(writes[k], imei, c)
      ensures Carried(writes[k], imei, c) ==> writes[k].patch[c] == CarriedValue(writes[k].origin.value, c).value
    {
      assert writes[k] in writes;
      SetsIffCarried(writes[k], imei, c);
    }
    LastWriterWins(writes, imei, c);
    forall k: nat | LatestCarrier(writes, imei, c, k)
      ensures LatestSetter(writes, imei, c, k)
    {
    }
  }

  /** Battery level and voltage always come from the same report. */
  lemma BatteryFromOneReport(writes: seq<Write>, imei: Imei, k: nat)
    requires (forall w :: w in writes ==> Genuine(w)) && LatestCarrier(writes, imei, LastBatteryLevelPercent, k)
    ensures LatestCarrier(writes, imei, LastBatteryVoltageMv, k)
    ensures var battery := writes[k].origin.value.battery;
            && battery.Some?
            && ColumnOf(writes, imei, LastBatteryLevelPercent) == Some(Number(battery.value.levelPercent))
            && ColumnOf(writes, imei, LastBatteryVoltageMv) == Some(Number(battery.value.voltageMv))
  {
    SnapshotIsLatestCarried(writes, imei, LastBatteryLevelPercent);
    SnapshotIsLatestCarried(writes, imei, LastBatteryVoltageMv);
    assert forall j :: 0 <= j < |writes| ==>
      (Carried(writes[j], imei, LastBatteryLevelPercent) <==> Carried(writes[j], imei, LastBatteryVoltageMv));
  }
}
