// The bronze tables and the procedure REFRESH_STAGED_MEASUREMENTS as a step between databases.
module Bronze {
  import opened Join
  import opened Json
  import opened Tables
  import opened Wrappers

  type LoadId = string

  datatype BronzeRow = BronzeRow(m: Measurement, load: LoadId, loadedAt: Instant)
  datatype StagingRow = StagingRow(load: LoadId, m: Measurement)
  datatype SnapshotRow = SnapshotRow(load: LoadId, at: Instant, raw: Json, loadedAt: Instant)
  datatype LocationStagingRow = LocationStagingRow(load: LoadId, raw: Json)
  datatype SummaryRow = SummaryRow(load: LoadId, loadType: string, from: Instant, to: Instant, apiRecordCount: int,
                                   diff: Diff, bronzeChanged: bool, completedAt: Instant)

  datatype Database = Database(measurements: seq<BronzeRow>, measurementStaging: seq<StagingRow>,
                               snapshots: seq<SnapshotRow>, locationStaging: seq<LocationStagingRow>,
                               summaries: seq<SummaryRow>)

  const EMPTY := Database([], [], [], [], [])

  // ---- WHERE clauses

  function RowWithin(from: Instant, to: Instant): BronzeRow -> bool {
    (r: BronzeRow) => from <= r.m.key.at < to
  }

  function RowOutside(from: Instant, to: Instant): BronzeRow -> bool {
    (r: BronzeRow) => !(from <= r.m.key.at < to)
  }

  function RowAt(t: Instant): BronzeRow -> bool {
    (r: BronzeRow) => r.m.key.at == t
  }

  function Within(from: Instant, to: Instant): Measurement -> bool {
    (m: Measurement) => from <= m.key.at < to
  }

  function StagedBy(load: LoadId): StagingRow -> bool {
    (r: StagingRow) => r.load == load
  }

  function NotStagedBy(load: LoadId): StagingRow -> bool {
    (r: StagingRow) => r.load != load
  }

  function LocatedBy(load: LoadId): LocationStagingRow -> bool {
    (r: LocationStagingRow) => r.load == load
  }

  function NotLocatedBy(load: LoadId): LocationStagingRow -> bool {
    (r: LocationStagingRow) => r.load != load
  }

  function SnapshotBy(load: LoadId): SnapshotRow -> bool {
    (r: SnapshotRow) => r.load == load
  }

  function SnapshotNotBy(load: LoadId): SnapshotRow -> bool {
    (r: SnapshotRow) => r.load != load
  }

  // ---- selected columns

  function MeasurementsOf(rows: seq<BronzeRow>): seq<Measurement> {
    seq(|rows|, i requires 0 <= i < |rows| => rows[i].m)
  }

  function StagedColumns(rows: seq<StagingRow>): seq<Measurement> {
    seq(|rows|, i requires 0 <= i < |rows| => rows[i].m)
  }

  function LocationColumns(rows: seq<LocationStagingRow>): seq<Json> {
    seq(|rows|, i requires 0 <= i < |rows| => rows[i].raw)
  }

  /** Everything staged under one load ID, and the part of it inside a window. */
  function StagedOf(db: Database, load: LoadId): seq<Measurement> {
    StagedColumns(Filter(StagedBy(load), db.measurementStaging))
  }

  function StagedWithin(db: Database, load: LoadId, from: Instant, to: Instant): seq<Measurement> {
    Filter(Within(from, to), StagedOf(db, load))
  }

  function LocationsOf(db: Database, load: LoadId): seq<Json> {
    LocationColumns(Filter(LocatedBy(load), db.locationStaging))
  }

  function BronzeWithin(db: Database, from: Instant, to: Instant): seq<Measurement> {
    MeasurementsOf(Filter(RowWithin(from, to), db.measurements))
  }

  function StagingRows(load: LoadId, ms: seq<Measurement>): seq<StagingRow> {
    seq(|ms|, i requires 0 <= i < |ms| => StagingRow(load, ms[i]))
  }

  function LocationRows(load: LoadId, raws: seq<Json>): seq<LocationStagingRow> {
    seq(|raws|, i requires 0 <= i < |raws| => LocationStagingRow(load, raws[i]))
  }

  function BronzeRows(ms: seq<Measurement>, load: LoadId, now: Instant): seq<BronzeRow> {
    seq(|ms|, i requires 0 <= i < |ms| => BronzeRow(ms[i], load, now))
  }

  function SnapshotRows(raws: seq<Json>, load: LoadId, to: Instant, now: Instant): seq<SnapshotRow> {
    seq(|raws|, i requires 0 <= i < |raws| => SnapshotRow(load, to, raws[i], now))
  }

  // ---- committed transactions

  function StageMeasurements(db: Database, load: LoadId, ms: seq<Measurement>): Database {
    db.(measurementStaging := Filter(NotStagedBy(load), db.measurementStaging) + StagingRows(load, ms))
  }

  function StageLocations(db: Database, load: LoadId, raws: seq<Json>): Database {
    db.(locationStaging := Filter(NotLocatedBy(load), db.locationStaging) + LocationRows(load, raws))
  }

  /** The window deleted and refilled from staging, whatever the diff says. */
  function Replaced(db: Database, load: LoadId, from: Instant, to: Instant, now: Instant): seq<BronzeRow> {
    Filter(RowOutside(from, to), db.measurements) + BronzeRows(StagedWithin(db, load, from, to), load, now)
  }

  datatype Refreshed = Committed(after: Database, diff: Diff) | Rejected

  function Refresh(db: Database, load: LoadId, from: Instant, to: Instant, now: Instant): Refreshed {
    var staged := StagedWithin(db, load, from, to);
    if |DuplicatedKeys(staged)| > 0 then Rejected
    else
      var diff := DiffOf(staged, BronzeWithin(db, from, to));
      Committed(
        db.(measurements := if diff.BronzeChanged() then Replaced(db, load, from, to, now) else db.measurements,
            snapshots := Filter(SnapshotNotBy(load), db.snapshots) + SnapshotRows(LocationsOf(db, load), load, to, now),
            measurementStaging := Filter(NotStagedBy(load), db.measurementStaging),
            locationStaging := Filter(NotLocatedBy(load), db.locationStaging)),
        diff)
  }

  /** The database after a call of the procedure: its commit, or what was there when the guard rejects. */
  function AfterRefresh(db: Database, load: LoadId, from: Instant, to: Instant, now: Instant): Database {
    var result := Refresh(db, load, from, to, now);
    if result.Committed? then result.after else db
  }

  /** MERGE on LOAD_ID: update every matching row, or insert when there is none. */
  function Merge(rows: seq<SummaryRow>, row: SummaryRow): seq<SummaryRow> {
    if exists i :: 0 <= i < |rows| && rows[i].load == row.load
    then seq(|rows|, i requires 0 <= i < |rows| => if rows[i].load == row.load then row else rows[i])
    else rows + [row]
  }

  predicate UniqueBronze(db: Database) {
    Unique(MeasurementsOf(db.measurements))
  }

  // ---- staging

  lemma OtherStagingRows(rows: seq<StagingRow>, load: LoadId, other: LoadId)
    ensures Filter(StagedBy(other), Filter(NotStagedBy(load), rows)) ==
      if other == load then [] else Filter(StagedBy(other), rows)
  {
    if other == load {
      FilterIn(NotStagedBy(load), rows);
      FilterNone(StagedBy(other), Filter(NotStagedBy(load), rows));
    } else {
      FilterFilter(StagedBy(other), NotStagedBy(load), StagedBy(other), rows);
    }
  }

  lemma StagingRowsReplaced(rows: seq<StagingRow>, load: LoadId, added: seq<StagingRow>, other: LoadId)
    requires forall i :: 0 <= i < |added| ==> added[i].load == load
    ensures Filter(StagedBy(other), Filter(NotStagedBy(load), rows) + added) ==
      if other == load then added else Filter(StagedBy(other), rows)
  {
    FilterConcat(StagedBy(other), Filter(NotStagedBy(load), rows), added);
    OtherStagingRows(rows, load, other);
    if other == load {
      FilterAll(StagedBy(other), added);
    } else {
      FilterNone(StagedBy(other), added);
    }
  }

  lemma StagedAfterStaging(db: Database, load: LoadId, ms: seq<Measurement>, other: LoadId)
    ensures StagedOf(StageMeasurements(db, load, ms), other) == if other == load then ms else StagedOf(db, other)
  {
    StagingRowsReplaced(db.measurementStaging, load, StagingRows(load, ms), other);
    assert StagedColumns(StagingRows(load, ms)) == ms;
  }

  lemma OtherLocationRows(rows: seq<LocationStagingRow>, load: LoadId, other: LoadId)
    ensures Filter(LocatedBy(other), Filter(NotLocatedBy(load), rows)) ==
      if other == load then [] else Filter(LocatedBy(other), rows)
  {
    if other == load {
      FilterIn(NotLocatedBy(load), rows);
      FilterNone(LocatedBy(other), Filter(NotLocatedBy(load), rows));
    } else {
      FilterFilter(LocatedBy(other), NotLocatedBy(load), LocatedBy(other), rows);
    }
  }

  lemma LocationRowsReplaced(rows: seq<LocationStagingRow>, load: LoadId, added: seq<LocationStagingRow>, other: LoadId)
    requires forall i :: 0 <= i < |added| ==> added[i].load == load
    ensures Filter(LocatedBy(other), Filter(NotLocatedBy(load), rows) + added) ==
      if other == load then added else Filter(LocatedBy(other), rows)
  {
    FilterConcat(LocatedBy(other), Filter(NotLocatedBy(load), rows), added);
    OtherLocationRows(rows, load, other);
    if other == load {
      FilterAll(LocatedBy(other), added);
    } else {
      FilterNone(LocatedBy(other), added);
    }
  }

  lemma LocationsAfterStaging(db: Database, load: LoadId, raws: seq<Json>, other: LoadId)
    ensures LocationsOf(StageLocations(db, load, raws), other) == if other == load then raws else LocationsOf(db, other)
  {
    LocationRowsReplaced(db.locationStaging, load, LocationRows(load, raws), other);
    assert LocationColumns(LocationRows(load, raws)) == raws;
  }

  /** A committed refresh consumes its own staging and no other load's. */
  lemma RefreshConsumesStaging(db: Database, load: LoadId, from: Instant, to: Instant, now: Instant, other: LoadId)
    requires Refresh(db, load, from, to, now).Committed?
    ensures var after := Refresh(db, load, from, to, now).after;
      && StagedOf(after, other) == (if other == load then [] else StagedOf(db, other))
      && LocationsOf(after, other) == (if other == load then [] else LocationsOf(db, other))
  {
    OtherStagingRows(db.measurementStaging, load, other);
    OtherLocationRows(db.locationStaging, load, other);
  }

  lemma SnapshotReplaced(rows: seq<SnapshotRow>, load: LoadId, added: seq<SnapshotRow>, other: LoadId)
    requires forall i :: 0 <= i < |added| ==> added[i].load == load
    ensures Filter(SnapshotBy(other), Filter(SnapshotNotBy(load), rows) + added) ==
      if other == load then added else Filter(SnapshotBy(other), rows)
  {
    var kept := Filter(SnapshotNotBy(load), rows);
    FilterConcat(SnapshotBy(other), kept, added);
    if other == load {
      FilterIn(SnapshotNotBy(load), rows);
      FilterNone(SnapshotBy(other), kept);
      FilterAll(SnapshotBy(other), added);
    } else {
      FilterFilter(SnapshotBy(other), SnapshotNotBy(load), SnapshotBy(other), rows);
      FilterNone(SnapshotBy(other), added);
    }
  }

  /** A committed refresh replaces its load's snapshot by the staged locations, and keeps the others. */
  lemma RefreshReplacesSnapshot(db: Database, load: LoadId, from: Instant, to: Instant, now: Instant, other: LoadId)
    requires Refresh(db, load, from, to, now).Committed?
    ensures Filter(SnapshotBy(other), Refresh(db, load, from, to, now).after.snapshots) ==
      if other == load then SnapshotRows(LocationsOf(db, load), load, to, now)
      else Filter(SnapshotBy(other), db.snapshots)
  {
    SnapshotReplaced(db.snapshots, load, SnapshotRows(LocationsOf(db, load), load, to, now), other);
  }

  /** Another load's leftover staging changes nothing a refresh reads, counts or writes to bronze. */
  lemma ForeignStagingIsInert(db: Database, db': Database, load: LoadId, from: Instant, to: Instant, now: Instant)
    requires db'.measurements == db.measurements && db'.snapshots == db.snapshots
    requires StagedOf(db', load) == StagedOf(db, load) && LocationsOf(db', load) == LocationsOf(db, load)
    ensures var r, r' := Refresh(db, load, from, to, now), Refresh(db', load, from, to, now);
      && (r.Committed? <==> r'.Committed?)
      && (r.Committed? ==>
            && r'.diff == r.diff
            && r'.after.measurements == r.after.measurements
            && r'.after.snapshots == r.after.snapshots)
  {
  }

  /** What is read back for a load is exactly what its rows hold. */
  lemma StagedOfIn(db: Database, load: LoadId, m: Measurement)
    ensures m in StagedOf(db, load) <==> StagingRow(load, m) in db.measurementStaging
  {
    var rows := Filter(StagedBy(load), db.measurementStaging);
    FilterIn(StagedBy(load), db.measurementStaging);
    if m in StagedOf(db, load) {
      var i :| 0 <= i < |rows| && StagedOf(db, load)[i] == m;
      assert rows[i] in rows;
    }
    if StagingRow(load, m) in rows {
      var i :| 0 <= i < |rows| && rows[i] == StagingRow(load, m);
      assert StagedOf(db, load)[i] == m;
    }
  }

  lemma LocationsOfIn(db: Database, load: LoadId, raw: Json)
    ensures raw in LocationsOf(db, load) <==> LocationStagingRow(load, raw) in db.locationStaging
  {
    var rows := Filter(LocatedBy(load), db.locationStaging);
    FilterIn(LocatedBy(load), db.locationStaging);
    if raw in LocationsOf(db, load) {
      var i :| 0 <= i < |rows| && LocationsOf(db, load)[i] == raw;
      assert rows[i] in rows;
    }
    if LocationStagingRow(load, raw) in rows {
      var i :| 0 <= i < |rows| && rows[i] == LocationStagingRow(load, raw);
      assert LocationsOf(db, load)[i] == raw;
    }
  }

  /** Row by row: the load's old rows are gone, its new ones are there, and no other row has changed. */
  lemma StagingTableHolds(db: Database, load: LoadId, ms: seq<Measurement>, row: StagingRow)
    ensures row in StageMeasurements(db, load, ms).measurementStaging <==>
      if row.load == load then row.m in ms else row in db.measurementStaging
  {
    StagedAfterStaging(db, load, ms, row.load);
    StagedOfIn(StageMeasurements(db, load, ms), row.load, row.m);
    StagedOfIn(db, row.load, row.m);
  }

  lemma LocationTableHolds(db: Database, load: LoadId, raws: seq<Json>, row: LocationStagingRow)
    ensures row in StageLocations(db, load, raws).locationStaging <==>
      if row.load == load then row.raw in raws else row in db.locationStaging
  {
    LocationsAfterStaging(db, load, raws, row.load);
    LocationsOfIn(StageLocations(db, load, raws), row.load, row.raw);
    LocationsOfIn(db, row.load, row.raw);
  }

  /** The snapshot a refresh publishes has one row per location staged, in order, stamped with the window's end. */
  lemma SnapshotRowsHold(db: Database, load: LoadId, from: Instant, to: Instant, now: Instant, i: nat)
    requires Refresh(db, load, from, to, now).Committed?
    ensures var snapshot := Filter(SnapshotBy(load), Refresh(db, load, from, to, now).after.snapshots);
      && |snapshot| == |LocationsOf(db, load)|
      && (i < |snapshot| ==> snapshot[i] == SnapshotRow(load, to, LocationsOf(db, load)[i], now))
  {
    RefreshReplacesSnapshot(db, load, from, to, now, load);
  }

  // ---- uniqueness of bronze identities

  lemma {:induction false} FilterKeepsUnique(p: BronzeRow -> bool, rows: seq<BronzeRow>)
    requires Unique(MeasurementsOf(rows))
    ensures Unique(MeasurementsOf(Filter(p, rows)))
  {
    if rows == [] {
    } else {
      var front, last := rows[..|rows| - 1], rows[|rows| - 1];
      assert MeasurementsOf(front) == MeasurementsOf(rows)[..|rows| - 1];
      FilterKeepsUnique(p, front);
      FilterIn(p, front);
      var kept := Filter(p, front);
      forall i | 0 <= i < |kept| ensures kept[i].m.key != last.m.key {
        assert kept[i] in front;
        var k :| 0 <= k < |front| && front[k] == kept[i];
        assert MeasurementsOf(rows)[k].key != MeasurementsOf(rows)[|rows| - 1].key;
      }
      assert MeasurementsOf(Filter(p, rows)) == MeasurementsOf(kept) + if p(last) then [last.m] else [];
    }
  }

  lemma MeasurementsConcat(rows: seq<BronzeRow>, more: seq<BronzeRow>)
    ensures MeasurementsOf(rows + more) == MeasurementsOf(rows) + MeasurementsOf(more)
  {
  }

  lemma MeasurementsOfRows(ms: seq<Measurement>, load: LoadId, now: Instant)
    ensures MeasurementsOf(BronzeRows(ms, load, now)) == ms
  {
  }

  /** The source columns of a replaced table. */
  lemma ReplacedColumns(db: Database, load: LoadId, from: Instant, to: Instant, now: Instant)
    ensures MeasurementsOf(Replaced(db, load, from, to, now)) ==
      MeasurementsOf(Filter(RowOutside(from, to), db.measurements)) + StagedWithin(db, load, from, to)
  {
    var staged := StagedWithin(db, load, from, to);
    MeasurementsConcat(Filter(RowOutside(from, to), db.measurements), BronzeRows(staged, load, now));
    MeasurementsOfRows(staged, load, now);
  }

  /** The rows kept and the rows put in share no identity: their instants lie on different sides of the window. */
  lemma KeptAreElsewhere(rows: seq<BronzeRow>, from: Instant, to: Instant, m: Measurement)
    requires m in MeasurementsOf(Filter(RowOutside(from, to), rows))
    ensures !(from <= m.key.at < to)
  {
    var kept := Filter(RowOutside(from, to), rows);
    FilterIn(RowOutside(from, to), rows);
    var i :| 0 <= i < |kept| && MeasurementsOf(kept)[i] == m;
    assert kept[i] in kept;
  }

  lemma ReplacedIsUnique(db: Database, load: LoadId, from: Instant, to: Instant, now: Instant)
    requires UniqueBronze(db) && |DuplicatedKeys(StagedWithin(db, load, from, to))| == 0
    ensures Unique(MeasurementsOf(Replaced(db, load, from, to, now)))
  {
    var staged, kept := StagedWithin(db, load, from, to), MeasurementsOf(Filter(RowOutside(from, to), db.measurements));
    GuardIffUnique(staged);
    FilterKeepsUnique(RowOutside(from, to), db.measurements);
    forall x, y | x in kept && y in staged ensures x.key != y.key {
      KeptAreElsewhere(db.measurements, from, to, x);
      FilterIn(Within(from, to), StagedOf(db, load));
    }
    UniqueConcat(kept, staged);
    ReplacedColumns(db, load, from, to, now);
  }

  /** Bronze identities stay unique: the guard covers the rows put in, the window the rows taken out. */
  lemma RefreshKeepsUnique(db: Database, load: LoadId, from: Instant, to: Instant, now: Instant)
    requires UniqueBronze(db) && Refresh(db, load, from, to, now).Committed?
    ensures UniqueBronze(Refresh(db, load, from, to, now).after)
  {
    ReplacedIsUnique(db, load, from, to, now);
  }

  // ---- what a refresh leaves in bronze

  /** The measurements bronze holds at one instant. */
  function ContentAt(db: Database, t: Instant): set<Measurement> {
    set r | r in db.measurements && r.m.key.at == t :: r.m
  }

  function StagedAt(ms: seq<Measurement>, t: Instant): set<Measurement> {
    set m | m in ms && m.key.at == t
  }

  lemma BronzeWithinIn(db: Database, from: Instant, to: Instant, m: Measurement)
    ensures m in BronzeWithin(db, from, to) <==> from <= m.key.at < to && m in ContentAt(db, m.key.at)
  {
    var rows := Filter(RowWithin(from, to), db.measurements);
    FilterIn(RowWithin(from, to), db.measurements);
    if from <= m.key.at < to && m in ContentAt(db, m.key.at) {
      var r :| r in db.measurements && r.m == m;
      var i :| 0 <= i < |rows| && rows[i] == r;
      assert MeasurementsOf(rows)[i] == m;
    }
    if m in BronzeWithin(db, from, to) {
      var i :| 0 <= i < |rows| && MeasurementsOf(rows)[i] == m;
      assert rows[i] in rows;
    }
  }

  lemma ReplacedIn(db: Database, load: LoadId, from: Instant, to: Instant, now: Instant, r: BronzeRow)
    ensures r in Replaced(db, load, from, to, now) <==>
      if from <= r.m.key.at < to then r == BronzeRow(r.m, load, now) && r.m in StagedOf(db, load)
      else r in db.measurements
  {
    var staged := StagedWithin(db, load, from, to);
    FilterIn(RowOutside(from, to), db.measurements);
    FilterIn(Within(from, to), StagedOf(db, load));
    if r == BronzeRow(r.m, load, now) && r.m in staged {
      var i :| 0 <= i < |staged| && staged[i] == r.m;
      assert BronzeRows(staged, load, now)[i] == r;
    }
  }

  /** Where each row of bronze comes from: it was there before, or this load staged it in the window. */
  lemma RefreshRowsIn(db: Database, load: LoadId, from: Instant, to: Instant, now: Instant, r: BronzeRow)
    requires Refresh(db, load, from, to, now).Committed?
    ensures var result := Refresh(db, load, from, to, now);
      r in result.after.measurements <==>
        if result.diff.BronzeChanged() && from <= r.m.key.at < to
        then r == BronzeRow(r.m, load, now) && r.m in StagedOf(db, load)
        else r in db.measurements
  {
    ReplacedIn(db, load, from, to, now, r);
  }

  /**
   * After a commit, skipped or not, bronze holds at each instant of the window exactly what
   * the load staged there, and outside the window what it held before.
   */
  lemma RefreshContent(db: Database, load: LoadId, from: Instant, to: Instant, now: Instant, t: Instant)
    requires Refresh(db, load, from, to, now).Committed?
    ensures ContentAt(Refresh(db, load, from, to, now).after, t) ==
      if from <= t < to then StagedAt(StagedOf(db, load), t) else ContentAt(db, t)
  {
    var result := Refresh(db, load, from, to, now);
    var staged, bronze := StagedWithin(db, load, from, to), BronzeWithin(db, from, to);
    FilterIn(Within(from, to), StagedOf(db, load));
    GuardIffUnique(staged);
    UnchangedIffSameContent(staged, bronze);
    forall m: Measurement | m.key.at == t
      ensures m in ContentAt(result.after, t) <==>
        if from <= t < to then m in StagedAt(StagedOf(db, load), t) else m in ContentAt(db, t)
    {
      RefreshRowsIn(db, load, from, to, now, BronzeRow(m, load, now));
      if m in ContentAt(result.after, t) {
        var r :| r in result.after.measurements && r.m == m;
        RefreshRowsIn(db, load, from, to, now, r);
      }
      if m in ContentAt(db, t) {
        var r :| r in db.measurements && r.m == m;
        RefreshRowsIn(db, load, from, to, now, r);
      }
      BronzeWithinIn(db, from, to, m);
      assert m in staged <==> m in Content(staged);
      assert m in bronze <==> m in Content(bronze);
    }
  }

  lemma MeasurementsOfOneMore(rows: seq<BronzeRow>, row: BronzeRow)
    ensures MeasurementsOf(rows + [row]) == MeasurementsOf(rows) + [row.m]
    ensures MeasurementsOf(rows + []) == MeasurementsOf(rows)
  {
    assert rows + [] == rows;
  }

  lemma {:induction false} SplitByWindow(rows: seq<BronzeRow>, from: Instant, to: Instant)
    ensures multiset(MeasurementsOf(rows)) ==
      multiset(MeasurementsOf(Filter(RowOutside(from, to), rows))) +
      multiset(MeasurementsOf(Filter(RowWithin(from, to), rows)))
  {
    if rows == [] {
    } else {
      var front, last := rows[..|rows| - 1], rows[|rows| - 1];
      SplitByWindow(front, from, to);
      MeasurementsOfOneMore(front, last);
      MeasurementsOfOneMore(Filter(RowOutside(from, to), front), last);
      MeasurementsOfOneMore(Filter(RowWithin(from, to), front), last);
      assert rows == front + [last];
    }
  }

  lemma ReplacedMultiset(db: Database, load: LoadId, from: Instant, to: Instant, now: Instant)
    ensures multiset(MeasurementsOf(Replaced(db, load, from, to, now))) ==
      multiset(MeasurementsOf(Filter(RowOutside(from, to), db.measurements))) +
      multiset(StagedWithin(db, load, from, to))
  {
    ReplacedColumns(db, load, from, to, now);
  }

  lemma MultisetsCancel<T>(a: multiset<T>, b: multiset<T>, c: multiset<T>)
    ensures a + b == a + c <==> b == c
  {
    if a + b == a + c {
      assert b == (a + b) - a && c == (a + c) - a;
    }
  }

  /** Replacing a window changes nothing but its rows. */
  lemma ReplacedIsSameIff(db: Database, load: LoadId, from: Instant, to: Instant, now: Instant)
    ensures multiset(MeasurementsOf(db.measurements)) == multiset(MeasurementsOf(Replaced(db, load, from, to, now)))
      <==> multiset(BronzeWithin(db, from, to)) == multiset(StagedWithin(db, load, from, to))
  {
    SplitByWindow(db.measurements, from, to);
    ReplacedMultiset(db, load, from, to, now);
    MultisetsCancel(multiset(MeasurementsOf(Filter(RowOutside(from, to), db.measurements))),
                    multiset(BronzeWithin(db, from, to)), multiset(StagedWithin(db, load, from, to)));
  }

  /**
   * Skipping an unchanged window leaves the same table of identities and payloads as the unconditional
   * delete-and-insert, up to LOAD_ID and LOADED_AT, exactly when bronze identities are unique in the window.
   */
  lemma SkipEqualsReplaceIff(db: Database, load: LoadId, from: Instant, to: Instant, now: Instant)
    requires Refresh(db, load, from, to, now).Committed?
    ensures var result := Refresh(db, load, from, to, now);
      multiset(MeasurementsOf(result.after.measurements)) == multiset(MeasurementsOf(Replaced(db, load, from, to, now)))
        <==> result.diff.BronzeChanged() || Unique(BronzeWithin(db, from, to))
  {
    var staged, bronze := StagedWithin(db, load, from, to), BronzeWithin(db, from, to);
    GuardIffUnique(staged);
    if !DiffOf(staged, bronze).BronzeChanged() {
      ReplacedIsSameIff(db, load, from, to, now);
      UnchangedIffSameContent(staged, bronze);
      SameTableIff(staged, bronze);
    }
  }

  /** So in every table with unique identities, and so in every reachable one, skipping is only a shortcut. */
  lemma SkipEqualsReplace(db: Database, load: LoadId, from: Instant, to: Instant, now: Instant)
    requires UniqueBronze(db) && Refresh(db, load, from, to, now).Committed?
    ensures multiset(MeasurementsOf(Refresh(db, load, from, to, now).after.measurements)) ==
            multiset(MeasurementsOf(Replaced(db, load, from, to, now)))
  {
    FilterKeepsUnique(RowWithin(from, to), db.measurements);
    SkipEqualsReplaceIff(db, load, from, to, now);
  }

  /** A bronze table that holds one measurement twice, and the same measurement staged. */
  function RowTwice(m: Measurement, load: LoadId, now: Instant): Database {
    EMPTY.(measurements := [BronzeRow(m, load, now), BronzeRow(m, load, now)],
           measurementStaging := [StagingRow(load, m)])
  }

  lemma RowTwiceRead(m: Measurement, load: LoadId, now: Instant)
    ensures var db, from, to := RowTwice(m, load, now), m.key.at, m.key.at + 1;
      && StagedWithin(db, load, from, to) == [m]
      && BronzeWithin(db, from, to) == [m, m]
      && Replaced(db, load, from, to, now) == [BronzeRow(m, load, now)]
  {
    var db, from, to := RowTwice(m, load, now), m.key.at, m.key.at + 1;
    FilterAll(StagedBy(load), db.measurementStaging);
    assert StagedOf(db, load) == [m];
    FilterAll(Within(from, to), [m]);
    FilterAll(RowWithin(from, to), db.measurements);
    FilterNone(RowOutside(from, to), db.measurements);
  }

  /** Without unique bronze identities the skip would keep a repeated row that a replacement removes. */
  lemma SkipNeedsUniqueness(m: Measurement, load: LoadId, now: Instant)
    ensures var db := RowTwice(m, load, now);
      var result := Refresh(db, load, m.key.at, m.key.at + 1, now);
      && result.Committed? && !result.diff.BronzeChanged()
      && |result.after.measurements| == 2
      && |Replaced(db, load, m.key.at, m.key.at + 1, now)| == 1
  {
    RowTwiceRead(m, load, now);
    GuardIffUnique([m]);
    UnchangedIffSameContent([m], [m, m]);
    assert Content([m]) == Content([m, m]);
  }

  lemma {:induction false} WindowSplits(rows: seq<BronzeRow>, from: Instant, to: Instant)
    ensures |Filter(RowWithin(from, to), rows)| + |Filter(RowOutside(from, to), rows)| == |rows|
  {
    if rows == [] {
    } else {
      WindowSplits(rows[..|rows| - 1], from, to);
    }
  }

  /** The returned counts account for every staged row, every bronze row, and the change in size. */
  lemma RefreshAccounting(db: Database, load: LoadId, from: Instant, to: Instant, now: Instant)
    requires UniqueBronze(db) && Refresh(db, load, from, to, now).Committed?
    ensures var Committed(after, diff) := Refresh(db, load, from, to, now);
      var staged, bronze := StagedWithin(db, load, from, to), BronzeWithin(db, from, to);
      && diff.newCount + MatchedCount(staged, bronze) == |staged|
      && diff.absentCount + MatchedCount(staged, bronze) == |bronze|
      && diff.changedCount <= MatchedCount(staged, bronze)
      && |after.measurements| == |db.measurements| + diff.newCount - diff.absentCount
  {
    var staged := StagedWithin(db, load, from, to);
    GuardIffUnique(staged);
    FilterKeepsUnique(RowWithin(from, to), db.measurements);
    JoinCounts(staged, BronzeWithin(db, from, to));
    WindowSplits(db.measurements, from, to);
  }

  // ---- the counts, on the rows of the tables

  function StagedRowsIn(db: Database, load: LoadId, from: Instant, to: Instant): set<Measurement> {
    set r | r in db.measurementStaging && r.load == load && from <= r.m.key.at < to :: r.m
  }

  function BronzeRowsIn(db: Database, from: Instant, to: Instant): set<Measurement> {
    set r | r in db.measurements && from <= r.m.key.at < to :: r.m
  }

  function KeysIn(ms: set<Measurement>): set<Key> {
    set m | m in ms :: m.key
  }

  function ChangedIn(staged: set<Measurement>, bronze: set<Measurement>): set<Key> {
    set s, b | s in staged && b in bronze && b.key == s.key && b.raw != s.raw :: s.key
  }

  lemma WindowRows(db: Database, load: LoadId, from: Instant, to: Instant)
    ensures Content(StagedWithin(db, load, from, to)) == StagedRowsIn(db, load, from, to)
    ensures Content(BronzeWithin(db, from, to)) == BronzeRowsIn(db, from, to)
  {
    FilterIn(Within(from, to), StagedOf(db, load));
    forall m ensures m in Content(StagedWithin(db, load, from, to)) <==> m in StagedRowsIn(db, load, from, to) {
      StagedOfIn(db, load, m);
    }
    forall m ensures m in Content(BronzeWithin(db, from, to)) <==> m in BronzeRowsIn(db, from, to) {
      BronzeWithinIn(db, from, to, m);
    }
  }

  lemma KeysOfContent(ss: seq<Measurement>, bs: seq<Measurement>)
    ensures Keys(ss) == KeysIn(Content(ss)) && ChangedKeys(ss, bs) == ChangedIn(Content(ss), Content(bs))
  {
    forall k ensures k in Keys(ss) <==> k in KeysIn(Content(ss)) {
      if k in Keys(ss) {
        var m :| m in ss && m.key == k;
        assert m in Content(ss);
      }
    }
    forall k ensures k in ChangedKeys(ss, bs) <==> k in ChangedIn(Content(ss), Content(bs)) {
      if k in ChangedKeys(ss, bs) {
        var s, b :| s in ss && b in bs && b.key == s.key == k && b.raw != s.raw;
        assert s in Content(ss) && b in Content(bs);
      }
    }
  }

  /**
   * A committed refresh reports how many identities are staged and not held in the window, staged and
   * held there with another payload, and held there and not staged.
   */
  lemma RefreshCountsAreExact(db: Database, load: LoadId, from: Instant, to: Instant, now: Instant)
    requires UniqueBronze(db) && Refresh(db, load, from, to, now).Committed?
    ensures var diff := Refresh(db, load, from, to, now).diff;
      var staged, bronze := StagedRowsIn(db, load, from, to), BronzeRowsIn(db, from, to);
      && diff.newCount == |KeysIn(staged) - KeysIn(bronze)|
      && diff.changedCount == |ChangedIn(staged, bronze)|
      && diff.absentCount == |KeysIn(bronze) - KeysIn(staged)|
  {
    var staged, bronze := StagedWithin(db, load, from, to), BronzeWithin(db, from, to);
    GuardIffUnique(staged);
    FilterKeepsUnique(RowWithin(from, to), db.measurements);
    CountsAreExact(staged, bronze);
    WindowRows(db, load, from, to);
    KeysOfContent(staged, bronze);
    KeysOfContent(bronze, staged);
  }

  // ---- repeating and reordering refreshes

  /**
   * Staging the same rows again, under the same or another load, and refreshing the same
   * window counts nothing and leaves every bronze row as it was, LOAD_ID and LOADED_AT included.
   */
  lemma RestagedRefreshIsIdle(db: Database, load: LoadId, from: Instant, to: Instant, now: Instant,
                              load': LoadId, now': Instant)
    requires Refresh(db, load, from, to, now).Committed?
    ensures var after := Refresh(db, load, from, to, now).after;
      var again := Refresh(StageMeasurements(after, load', StagedOf(db, load)), load', from, to, now');
      && again.Committed?
      && again.diff == Diff(0, 0, 0, None)
      && again.after.measurements == after.measurements
  {
    var after := Refresh(db, load, from, to, now).after;
    var restaged := StageMeasurements(after, load', StagedOf(db, load));
    StagedAfterStaging(after, load', StagedOf(db, load), load');
    var staged, bronze := StagedWithin(db, load, from, to), BronzeWithin(restaged, from, to);
    assert StagedWithin(restaged, load', from, to) == staged;
    GuardIffUnique(staged);
    FilterIn(Within(from, to), StagedOf(db, load));
    forall m: Measurement ensures m in staged <==> m in bronze {
      RefreshContent(db, load, from, to, now, m.key.at);
      BronzeWithinIn(restaged, from, to, m);
      assert ContentAt(restaged, m.key.at) == ContentAt(after, m.key.at);
    }
    assert Content(staged) == Content(bronze);
    UnchangedIffSameContent(staged, bronze);
    OldestNewIsMinimum(staged, bronze);
  }

  lemma WindowHoldsStaged(db: Database, load: LoadId, from: Instant, to: Instant, now: Instant, m: Measurement)
    requires Refresh(db, load, from, to, now).Committed?
    ensures m in BronzeWithin(Refresh(db, load, from, to, now).after, from, to) <==>
            m in StagedWithin(db, load, from, to)
  {
    FilterIn(Within(from, to), StagedOf(db, load));
    BronzeWithinIn(Refresh(db, load, from, to, now).after, from, to, m);
    RefreshContent(db, load, from, to, now, m.key.at);
  }

  lemma WindowEmptyIffStagedEmpty(db: Database, load: LoadId, from: Instant, to: Instant, now: Instant)
    requires Refresh(db, load, from, to, now).Committed?
    ensures BronzeWithin(Refresh(db, load, from, to, now).after, from, to) == [] <==>
            StagedWithin(db, load, from, to) == []
  {
    var bronze := BronzeWithin(Refresh(db, load, from, to, now).after, from, to);
    var staged := StagedWithin(db, load, from, to);
    if bronze != [] {
      WindowHoldsStaged(db, load, from, to, now, bronze[0]);
    }
    if staged != [] {
      WindowHoldsStaged(db, load, from, to, now, staged[0]);
    }
  }

  /**
   * A refresh repeated without staging again finds its staging consumed: it commits, empties the
   * window and the load's snapshot, and reports a change exactly when the first one left rows there.
   */
  lemma RepeatedRefreshEmptiesWindow(db: Database, load: LoadId, from: Instant, to: Instant, now: Instant,
                                     now': Instant)
    requires Refresh(db, load, from, to, now).Committed?
    ensures var after := Refresh(db, load, from, to, now).after;
      var again := Refresh(after, load, from, to, now');
      && again.Committed?
      && BronzeWithin(again.after, from, to) == []
      && Filter(SnapshotBy(load), again.after.snapshots) == []
      && (!again.diff.BronzeChanged() <==> StagedWithin(db, load, from, to) == [])
  {
    var after := Refresh(db, load, from, to, now).after;
    RefreshConsumesStaging(db, load, from, to, now, load);
    assert StagedWithin(after, load, from, to) == [];
    GuardIffUnique([]);
    RefreshReplacesSnapshot(after, load, from, to, now', load);
    WindowEmptyIffStagedEmpty(db, load, from, to, now);
    WindowEmptyIffStagedEmpty(after, load, from, to, now');
    var before := BronzeWithin(after, from, to);
    UnchangedIffSameContent([], before);
    assert before != [] ==> before[0] in Content(before);
  }

  /** Removing a load's rows a second time removes nothing. */
  lemma RemovalIsIdempotent(db: Database, load: LoadId)
    ensures Filter(NotStagedBy(load), Filter(NotStagedBy(load), db.measurementStaging)) ==
            Filter(NotStagedBy(load), db.measurementStaging)
    ensures Filter(NotLocatedBy(load), Filter(NotLocatedBy(load), db.locationStaging)) ==
            Filter(NotLocatedBy(load), db.locationStaging)
  {
    FilterFilter(NotStagedBy(load), NotStagedBy(load), NotStagedBy(load), db.measurementStaging);
    FilterFilter(NotLocatedBy(load), NotLocatedBy(load), NotLocatedBy(load), db.locationStaging);
  }

  lemma SnapshotRemoved(rows: seq<SnapshotRow>, load: LoadId, added: seq<SnapshotRow>)
    requires forall i :: 0 <= i < |added| ==> added[i].load == load
    ensures Filter(SnapshotNotBy(load), Filter(SnapshotNotBy(load), rows) + added) == Filter(SnapshotNotBy(load), rows)
  {
    FilterConcat(SnapshotNotBy(load), Filter(SnapshotNotBy(load), rows), added);
    FilterFilter(SnapshotNotBy(load), SnapshotNotBy(load), SnapshotNotBy(load), rows);
    FilterNone(SnapshotNotBy(load), added);
  }

  lemma RepeatedRefreshKeepsBronzeIff(db: Database, load: LoadId, from: Instant, to: Instant, now: Instant,
                                      now': Instant)
    requires Refresh(db, load, from, to, now).Committed?
    requires Refresh(Refresh(db, load, from, to, now).after, load, from, to, now').Committed?
    ensures var after := Refresh(db, load, from, to, now).after;
      Refresh(after, load, from, to, now').after.measurements == after.measurements <==>
        StagedWithin(db, load, from, to) == []
  {
    RepeatedRefreshEmptiesWindow(db, load, from, to, now, now');
    WindowEmptyIffStagedEmpty(db, load, from, to, now);
  }

  lemma RepeatedRefreshKeepsSnapshotsIff(db: Database, load: LoadId, from: Instant, to: Instant, now: Instant,
                                         now': Instant)
    requires Refresh(db, load, from, to, now).Committed?
    requires Refresh(Refresh(db, load, from, to, now).after, load, from, to, now').Committed?
    ensures var after := Refresh(db, load, from, to, now).after;
      Refresh(after, load, from, to, now').after.snapshots == after.snapshots <==> LocationsOf(db, load) == []
  {
    var snapshot := SnapshotRows(LocationsOf(db, load), load, to, now);
    RefreshConsumesStaging(db, load, from, to, now, load);
    SnapshotRemoved(db.snapshots, load, snapshot);
    assert |Refresh(db, load, from, to, now).after.snapshots| ==
      |Filter(SnapshotNotBy(load), db.snapshots)| + |LocationsOf(db, load)|;
  }

  /**
   * Repeating a refresh without staging again leaves the whole database as the first one left it
   * exactly when the load had staged no measurement in the window and no location at all.
   */
  lemma RepeatedRefreshIsIdleIff(db: Database, load: LoadId, from: Instant, to: Instant, now: Instant, now': Instant)
    requires Refresh(db, load, from, to, now).Committed?
    ensures var after := Refresh(db, load, from, to, now).after;
      var again := Refresh(after, load, from, to, now');
      && again.Committed?
      && (again.after == after <==> StagedWithin(db, load, from, to) == [] && LocationsOf(db, load) == [])
  {
    var after := Refresh(db, load, from, to, now).after;
    var again := Refresh(after, load, from, to, now');
    RepeatedRefreshEmptiesWindow(db, load, from, to, now, now');
    RepeatedRefreshKeepsBronzeIff(db, load, from, to, now, now');
    RepeatedRefreshKeepsSnapshotsIff(db, load, from, to, now, now');
    RemovalIsIdempotent(db, load);
  }

  /** With a location staged but no measurement, the repeat reports no change, yet erases the snapshot. */
  lemma RepeatErasesSnapshot(load: LoadId, raw: Json, from: Instant, to: Instant, now: Instant, now': Instant)
    ensures var db := EMPTY.(locationStaging := [LocationStagingRow(load, raw)]);
      && Refresh(db, load, from, to, now).Committed?
      && var after := Refresh(db, load, from, to, now).after;
         var again := Refresh(after, load, from, to, now');
         && again.Committed? && again.diff == Diff(0, 0, 0, None) && again.after.measurements == after.measurements
         && after.snapshots == [SnapshotRow(load, to, raw, now)] && again.after.snapshots == []
  {
    var db := EMPTY.(locationStaging := [LocationStagingRow(load, raw)]);
    GuardIffUnique([]);
    assert StagedWithin(db, load, from, to) == [];
    FilterAll(LocatedBy(load), db.locationStaging);
    assert LocationsOf(db, load) == [raw];
    var after := Refresh(db, load, from, to, now).after;
    assert after.snapshots == [SnapshotRow(load, to, raw, now)];
    RepeatedRefreshEmptiesWindow(db, load, from, to, now, now');
    SnapshotRemoved([], load, after.snapshots);
    RefreshConsumesStaging(db, load, from, to, now, load);
    OldestNewIsMinimum([], BronzeWithin(after, from, to));
  }

  lemma ReplacedRowsAt(db: Database, load: LoadId, from: Instant, to: Instant, now: Instant, t: Instant)
    ensures Filter(RowAt(t), Replaced(db, load, from, to, now)) ==
      if from <= t < to then Filter(RowAt(t), BronzeRows(StagedWithin(db, load, from, to), load, now))
      else Filter(RowAt(t), db.measurements)
  {
    var kept := Filter(RowOutside(from, to), db.measurements);
    var added := BronzeRows(StagedWithin(db, load, from, to), load, now);
    FilterConcat(RowAt(t), kept, added);
    if from <= t < to {
      FilterIn(RowOutside(from, to), db.measurements);
      FilterNone(RowAt(t), kept);
    } else {
      FilterFilter(RowAt(t), RowOutside(from, to), RowAt(t), db.measurements);
      FilterIn(Within(from, to), StagedOf(db, load));
      forall r | r in added ensures r.m.key.at != t {
        assert r.m in StagedWithin(db, load, from, to);
      }
      FilterNone(RowAt(t), added);
    }
  }

  /** The rows of one instant after a call, in table order. */
  lemma RowsAfter(db: Database, load: LoadId, from: Instant, to: Instant, now: Instant, t: Instant)
    ensures var result := Refresh(db, load, from, to, now);
      Filter(RowAt(t), AfterRefresh(db, load, from, to, now).measurements) ==
        if result.Committed? && result.diff.BronzeChanged() && from <= t < to
        then Filter(RowAt(t), BronzeRows(StagedWithin(db, load, from, to), load, now))
        else Filter(RowAt(t), db.measurements)
  {
    ReplacedRowsAt(db, load, from, to, now, t);
  }

  /** Replacing one window leaves the rows of a disjoint one in place. */
  lemma ReplacedElsewhere(rows: seq<BronzeRow>, added: seq<BronzeRow>, from: Instant, to: Instant,
                          lo: Instant, hi: Instant)
    requires to <= lo || hi <= from
    requires forall i :: 0 <= i < |added| ==> from <= added[i].m.key.at < to
    ensures Filter(RowWithin(lo, hi), Filter(RowOutside(from, to), rows) + added) == Filter(RowWithin(lo, hi), rows)
  {
    FilterConcat(RowWithin(lo, hi), Filter(RowOutside(from, to), rows), added);
    FilterFilter(RowWithin(lo, hi), RowOutside(from, to), RowWithin(lo, hi), rows);
    FilterNone(RowWithin(lo, hi), added);
  }

  lemma DisjointWindowUntouched(db: Database, load: LoadId, from: Instant, to: Instant, now: Instant,
                                lo: Instant, hi: Instant)
    requires to <= lo || hi <= from
    ensures BronzeWithin(AfterRefresh(db, load, from, to, now), lo, hi) == BronzeWithin(db, lo, hi)
  {
    var staged := StagedWithin(db, load, from, to);
    FilterIn(Within(from, to), StagedOf(db, load));
    forall i | 0 <= i < |staged| ensures from <= staged[i].key.at < to {
      assert staged[i] in staged;
    }
    ReplacedElsewhere(db.measurements, BronzeRows(staged, load, now), from, to, lo, hi);
  }

  /** Bronze holds the same rows at every instant. */
  ghost predicate SameRows(db: Database, db': Database) {
    forall t :: Filter(RowAt(t), db.measurements) == Filter(RowAt(t), db'.measurements)
  }

  /** The two databases agree on every query by instant or by load ID, row for row. */
  ghost predicate SameTables(db: Database, db': Database) {
    && SameRows(db, db')
    && (forall l :: Filter(SnapshotBy(l), db.snapshots) == Filter(SnapshotBy(l), db'.snapshots))
    && (forall l :: StagedOf(db, l) == StagedOf(db', l))
    && (forall l :: LocationsOf(db, l) == LocationsOf(db', l))
    && db.summaries == db'.summaries
  }

  /** Both calls roll back, or both commit and report the same counts. */
  predicate SameReport(r: Refreshed, r': Refreshed) {
    if r.Rejected? then r'.Rejected? else r'.Committed? && r'.diff == r.diff
  }

  /** What a load and an instant find after a call. */
  lemma AfterCall(db: Database, load: LoadId, from: Instant, to: Instant, now: Instant, l: LoadId)
    ensures var after, commits := AfterRefresh(db, load, from, to, now), Refresh(db, load, from, to, now).Committed?;
      && StagedOf(after, l) == (if commits && l == load then [] else StagedOf(db, l))
      && LocationsOf(after, l) == (if commits && l == load then [] else LocationsOf(db, l))
      && Filter(SnapshotBy(l), after.snapshots) ==
           (if commits && l == load then SnapshotRows(LocationsOf(db, load), load, to, now)
            else Filter(SnapshotBy(l), db.snapshots))
      && after.summaries == db.summaries
  {
    if Refresh(db, load, from, to, now).Committed? {
      RefreshConsumesStaging(db, load, from, to, now, l);
      RefreshReplacesSnapshot(db, load, from, to, now, l);
    }
  }

  /** A second load on a disjoint window reports after the first one's call what it would have reported before. */
  lemma DisjointRefreshSame(db: Database, a: LoadId, fromA: Instant, toA: Instant, nowA: Instant,
                            b: LoadId, fromB: Instant, toB: Instant, nowB: Instant)
    requires a != b && (toA <= fromB || toB <= fromA)
    ensures SameReport(Refresh(db, b, fromB, toB, nowB),
                       Refresh(AfterRefresh(db, a, fromA, toA, nowA), b, fromB, toB, nowB))
    ensures StagedWithin(AfterRefresh(db, a, fromA, toA, nowA), b, fromB, toB) == StagedWithin(db, b, fromB, toB)
  {
    AfterCall(db, a, fromA, toA, nowA, b);
    DisjointWindowUntouched(db, a, fromA, toA, nowA, fromB, toB);
  }

  lemma DisjointCallsAgreeOn(db: Database, a: LoadId, fromA: Instant, toA: Instant, nowA: Instant,
                             b: LoadId, fromB: Instant, toB: Instant, nowB: Instant, l: LoadId)
    requires a != b && (toA <= fromB || toB <= fromA)
    ensures var ab := AfterRefresh(AfterRefresh(db, a, fromA, toA, nowA), b, fromB, toB, nowB);
      var ba := AfterRefresh(AfterRefresh(db, b, fromB, toB, nowB), a, fromA, toA, nowA);
      && Filter(SnapshotBy(l), ab.snapshots) == Filter(SnapshotBy(l), ba.snapshots)
      && StagedOf(ab, l) == StagedOf(ba, l) && LocationsOf(ab, l) == LocationsOf(ba, l)
  {
    var afterA, afterB := AfterRefresh(db, a, fromA, toA, nowA), AfterRefresh(db, b, fromB, toB, nowB);
    DisjointRefreshSame(db, a, fromA, toA, nowA, b, fromB, toB, nowB);
    DisjointRefreshSame(db, b, fromB, toB, nowB, a, fromA, toA, nowA);
    AfterCall(db, a, fromA, toA, nowA, l);
    AfterCall(db, a, fromA, toA, nowA, b);
    AfterCall(db, b, fromB, toB, nowB, l);
    AfterCall(db, b, fromB, toB, nowB, a);
    AfterCall(afterA, b, fromB, toB, nowB, l);
    AfterCall(afterB, a, fromA, toA, nowA, l);
  }

  /** Calls of different loads on disjoint windows commute, whether they commit or not: same reports, same tables. */
  lemma DisjointRefreshesCommute(db: Database, a: LoadId, fromA: Instant, toA: Instant, nowA: Instant,
                                 b: LoadId, fromB: Instant, toB: Instant, nowB: Instant)
    requires a != b && (toA <= fromB || toB <= fromA)
    ensures var afterA, afterB := AfterRefresh(db, a, fromA, toA, nowA), AfterRefresh(db, b, fromB, toB, nowB);
      && SameReport(Refresh(db, b, fromB, toB, nowB), Refresh(afterA, b, fromB, toB, nowB))
      && SameReport(Refresh(db, a, fromA, toA, nowA), Refresh(afterB, a, fromA, toA, nowA))
      && SameTables(AfterRefresh(afterA, b, fromB, toB, nowB), AfterRefresh(afterB, a, fromA, toA, nowA))
  {
    var afterA, afterB := AfterRefresh(db, a, fromA, toA, nowA), AfterRefresh(db, b, fromB, toB, nowB);
    var ab, ba := AfterRefresh(afterA, b, fromB, toB, nowB), AfterRefresh(afterB, a, fromA, toA, nowA);
    DisjointRefreshSame(db, a, fromA, toA, nowA, b, fromB, toB, nowB);
    DisjointRefreshSame(db, b, fromB, toB, nowB, a, fromA, toA, nowA);
    forall t ensures Filter(RowAt(t), ab.measurements) == Filter(RowAt(t), ba.measurements) {
      RowsAfter(db, a, fromA, toA, nowA, t);
      RowsAfter(db, b, fromB, toB, nowB, t);
      RowsAfter(afterA, b, fromB, toB, nowB, t);
      RowsAfter(afterB, a, fromA, toA, nowA, t);
    }
    forall l ensures Filter(SnapshotBy(l), ab.snapshots) == Filter(SnapshotBy(l), ba.snapshots)
      && StagedOf(ab, l) == StagedOf(ba, l) && LocationsOf(ab, l) == LocationsOf(ba, l)
    {
      DisjointCallsAgreeOn(db, a, fromA, toA, nowA, b, fromB, toB, nowB, l);
    }
    AfterCall(db, a, fromA, toA, nowA, a);
    AfterCall(db, b, fromB, toB, nowB, b);
    AfterCall(afterA, b, fromB, toB, nowB, b);
    AfterCall(afterB, a, fromA, toA, nowA, a);
  }

  // ---- two refreshes of one load

  function AfterBoth(db: Database, load: LoadId, fromA: Instant, toA: Instant, nowA: Instant,
                     fromB: Instant, toB: Instant, nowB: Instant): Database
  {
    AfterRefresh(AfterRefresh(db, load, fromA, toA, nowA), load, fromB, toB, nowB)
  }

  lemma NothingStagedWithin(db: Database, load: LoadId, from: Instant, to: Instant)
    ensures StagedWithin(db, load, from, to) == [] <==>
      forall t :: from <= t < to ==> StagedAt(StagedOf(db, load), t) == {}
  {
    var staged := StagedWithin(db, load, from, to);
    FilterIn(Within(from, to), StagedOf(db, load));
    if staged != [] {
      var m := staged[0];
      assert m in StagedAt(StagedOf(db, load), m.key.at);
    }
  }

  lemma RowsAtContent(db: Database, t: Instant)
    ensures ContentAt(db, t) == set r | r in Filter(RowAt(t), db.measurements) :: r.m
    ensures ContentAt(db, t) == {} <==> Filter(RowAt(t), db.measurements) == []
  {
    var rows := Filter(RowAt(t), db.measurements);
    FilterIn(RowAt(t), db.measurements);
    assert rows != [] ==> rows[0] in rows && rows[0].m in ContentAt(db, t);
  }

  /** A call of a load that has nothing staged commits and clears its window, wherever it held anything. */
  lemma UnstagedCallClears(db: Database, load: LoadId, from: Instant, to: Instant, now: Instant, t: Instant)
    requires StagedWithin(db, load, from, to) == []
    ensures Refresh(db, load, from, to, now).Committed?
    ensures Filter(RowAt(t), AfterRefresh(db, load, from, to, now).measurements) ==
      if from <= t < to then [] else Filter(RowAt(t), db.measurements)
  {
    GuardIffUnique([]);
    RowsAfter(db, load, from, to, now, t);
    RefreshContent(db, load, from, to, now, t);
    RowsAtContent(AfterRefresh(db, load, from, to, now), t);
    NothingStagedWithin(db, load, from, to);
  }

  /** After a committed call the load's next one, on a disjoint window, finds nothing staged. */
  lemma NextCall(db: Database, load: LoadId, fromA: Instant, toA: Instant, nowA: Instant,
                 fromB: Instant, toB: Instant, nowB: Instant, t: Instant)
    requires toA <= fromB || toB <= fromA
    requires Refresh(db, load, fromA, toA, nowA).Committed?
    ensures var after := AfterRefresh(db, load, fromA, toA, nowA);
      var again := AfterRefresh(after, load, fromB, toB, nowB);
      && StagedWithin(after, load, fromB, toB) == []
      && Filter(RowAt(t), again.measurements) ==
           (if fromB <= t < toB then [] else Filter(RowAt(t), after.measurements))
      && ContentAt(again, t) ==
           (if fromB <= t < toB then {}
            else if fromA <= t < toA then StagedAt(StagedOf(db, load), t) else ContentAt(db, t))
      && Filter(SnapshotBy(load), again.snapshots) == []
  {
    var after := AfterRefresh(db, load, fromA, toA, nowA);
    AfterCall(db, load, fromA, toA, nowA, load);
    UnstagedCallClears(after, load, fromB, toB, nowB, t);
    AfterCall(after, load, fromB, toB, nowB, load);
    RefreshContent(db, load, fromA, toA, nowA, t);
    RowsAtContent(after, t);
    RowsAtContent(AfterRefresh(after, load, fromB, toB, nowB), t);
  }

  /** When the order of two calls of one load on disjoint windows makes no difference. */
  predicate OrderIsIrrelevant(db: Database, load: LoadId, fromA: Instant, toA: Instant, nowA: Instant,
                              fromB: Instant, toB: Instant, nowB: Instant)
  {
    match (Refresh(db, load, fromA, toA, nowA).Committed?, Refresh(db, load, fromB, toB, nowB).Committed?)
    case (true, true) => StagedWithin(db, load, fromA, toA) == [] && StagedWithin(db, load, fromB, toB) == []
    case (true, false) => BronzeWithin(db, fromB, toB) == [] && LocationsOf(db, load) == []
    case (false, true) => BronzeWithin(db, fromA, toA) == [] && LocationsOf(db, load) == []
    case (false, false) => true
  }

  lemma SameLoadAgreesOn(db: Database, load: LoadId, fromA: Instant, toA: Instant, nowA: Instant,
                         fromB: Instant, toB: Instant, nowB: Instant, l: LoadId)
    ensures var ab := AfterBoth(db, load, fromA, toA, nowA, fromB, toB, nowB);
      var ba := AfterBoth(db, load, fromB, toB, nowB, fromA, toA, nowA);
      && (l != load ==> Filter(SnapshotBy(l), ab.snapshots) == Filter(SnapshotBy(l), ba.snapshots))
      && StagedOf(ab, l) == StagedOf(ba, l) && LocationsOf(ab, l) == LocationsOf(ba, l)
      && ab.summaries == ba.summaries
  {
    var afterA, afterB := AfterRefresh(db, load, fromA, toA, nowA), AfterRefresh(db, load, fromB, toB, nowB);
    AfterCall(db, load, fromA, toA, nowA, l);
    AfterCall(db, load, fromB, toB, nowB, l);
    AfterCall(db, load, fromA, toA, nowA, load);
    AfterCall(db, load, fromB, toB, nowB, load);
    GuardIffUnique([]);
    AfterCall(afterA, load, fromB, toB, nowB, l);
    AfterCall(afterB, load, fromA, toA, nowA, l);
  }

  lemma BothCommitAt(db: Database, load: LoadId, fromA: Instant, toA: Instant, nowA: Instant,
                     fromB: Instant, toB: Instant, nowB: Instant, t: Instant)
    requires toA <= fromB || toB <= fromA
    requires Refresh(db, load, fromA, toA, nowA).Committed? && Refresh(db, load, fromB, toB, nowB).Committed?
    ensures var ab := AfterBoth(db, load, fromA, toA, nowA, fromB, toB, nowB);
      var ba := AfterBoth(db, load, fromB, toB, nowB, fromA, toA, nowA);
      && (Filter(RowAt(t), ab.measurements) == Filter(RowAt(t), ba.measurements) ==>
            (fromA <= t < toA || fromB <= t < toB ==> StagedAt(StagedOf(db, load), t) == {}))
      && Filter(SnapshotBy(load), ab.snapshots) == Filter(SnapshotBy(load), ba.snapshots)
  {
    NextCall(db, load, fromA, toA, nowA, fromB, toB, nowB, t);
    NextCall(db, load, fromB, toB, nowB, fromA, toA, nowA, t);
    RowsAtContent(AfterBoth(db, load, fromA, toA, nowA, fromB, toB, nowB), t);
    RowsAtContent(AfterBoth(db, load, fromB, toB, nowB, fromA, toA, nowA), t);
  }

  /** Two calls that find nothing staged clear both windows, in either order. */
  lemma UnstagedCallsClear(db: Database, load: LoadId, fromA: Instant, toA: Instant, nowA: Instant,
                           fromB: Instant, toB: Instant, nowB: Instant, t: Instant)
    requires toA <= fromB || toB <= fromA
    requires StagedWithin(db, load, fromA, toA) == []
    ensures Refresh(db, load, fromA, toA, nowA).Committed?
    ensures Filter(RowAt(t), AfterBoth(db, load, fromA, toA, nowA, fromB, toB, nowB).measurements) ==
      if fromA <= t < toA || fromB <= t < toB then [] else Filter(RowAt(t), db.measurements)
  {
    UnstagedCallClears(db, load, fromA, toA, nowA, t);
    NextCall(db, load, fromA, toA, nowA, fromB, toB, nowB, t);
  }

  /** The two orders agree once they agree on bronze at every instant and on the load's own snapshot. */
  lemma SameLoadSameTables(db: Database, load: LoadId, fromA: Instant, toA: Instant, nowA: Instant,
                           fromB: Instant, toB: Instant, nowB: Instant)
    ensures var ab := AfterBoth(db, load, fromA, toA, nowA, fromB, toB, nowB);
      var ba := AfterBoth(db, load, fromB, toB, nowB, fromA, toA, nowA);
      SameTables(ab, ba) <==>
        && SameRows(ab, ba)
        && Filter(SnapshotBy(load), ab.snapshots) == Filter(SnapshotBy(load), ba.snapshots)
  {
    var ab := AfterBoth(db, load, fromA, toA, nowA, fromB, toB, nowB);
    var ba := AfterBoth(db, load, fromB, toB, nowB, fromA, toA, nowA);
    forall l ensures StagedOf(ab, l) == StagedOf(ba, l) && LocationsOf(ab, l) == LocationsOf(ba, l)
      && (l != load ==> Filter(SnapshotBy(l), ab.snapshots) == Filter(SnapshotBy(l), ba.snapshots))
    {
      SameLoadAgreesOn(db, load, fromA, toA, nowA, fromB, toB, nowB, l);
    }
    SameLoadAgreesOn(db, load, fromA, toA, nowA, fromB, toB, nowB, load);
  }

  lemma BothCommitSameRows(db: Database, load: LoadId, fromA: Instant, toA: Instant, nowA: Instant,
                           fromB: Instant, toB: Instant, nowB: Instant)
    requires toA <= fromB || toB <= fromA
    requires Refresh(db, load, fromA, toA, nowA).Committed? && Refresh(db, load, fromB, toB, nowB).Committed?
    ensures SameRows(AfterBoth(db, load, fromA, toA, nowA, fromB, toB, nowB),
                     AfterBoth(db, load, fromB, toB, nowB, fromA, toA, nowA)) <==>
            StagedWithin(db, load, fromA, toA) == [] && StagedWithin(db, load, fromB, toB) == []
  {
    var ab := AfterBoth(db, load, fromA, toA, nowA, fromB, toB, nowB);
    var ba := AfterBoth(db, load, fromB, toB, nowB, fromA, toA, nowA);
    if StagedWithin(db, load, fromA, toA) == [] && StagedWithin(db, load, fromB, toB) == [] {
      forall t ensures Filter(RowAt(t), ab.measurements) == Filter(RowAt(t), ba.measurements) {
        UnstagedCallsClear(db, load, fromA, toA, nowA, fromB, toB, nowB, t);
        UnstagedCallsClear(db, load, fromB, toB, nowB, fromA, toA, nowA, t);
      }
    } else if SameRows(ab, ba) {
      forall t | fromA <= t < toA || fromB <= t < toB ensures StagedAt(StagedOf(db, load), t) == {} {
        assert Filter(RowAt(t), ab.measurements) == Filter(RowAt(t), ba.measurements);
        BothCommitAt(db, load, fromA, toA, nowA, fromB, toB, nowB, t);
      }
      NothingStagedWithin(db, load, fromA, toA);
      NothingStagedWithin(db, load, fromB, toB);
    }
  }

  lemma BothCommit(db: Database, load: LoadId, fromA: Instant, toA: Instant, nowA: Instant,
                   fromB: Instant, toB: Instant, nowB: Instant)
    requires toA <= fromB || toB <= fromA
    requires Refresh(db, load, fromA, toA, nowA).Committed? && Refresh(db, load, fromB, toB, nowB).Committed?
    ensures SameTables(AfterBoth(db, load, fromA, toA, nowA, fromB, toB, nowB),
                       AfterBoth(db, load, fromB, toB, nowB, fromA, toA, nowA)) <==>
            StagedWithin(db, load, fromA, toA) == [] && StagedWithin(db, load, fromB, toB) == []
  {
    SameLoadSameTables(db, load, fromA, toA, nowA, fromB, toB, nowB);
    BothCommitSameRows(db, load, fromA, toA, nowA, fromB, toB, nowB);
    BothCommitAt(db, load, fromA, toA, nowA, fromB, toB, nowB, 0);
  }

  lemma NothingInBronze(db: Database, from: Instant, to: Instant)
    ensures BronzeWithin(db, from, to) == [] <==> forall t :: from <= t < to ==> ContentAt(db, t) == {}
  {
    var bronze := BronzeWithin(db, from, to);
    if bronze != [] {
      BronzeWithinIn(db, from, to, bronze[0]);
    }
    forall t | bronze == [] && from <= t < to ensures ContentAt(db, t) == {} {
      if m :| m in ContentAt(db, t) {
        BronzeWithinIn(db, from, to, m);
      }
    }
  }

  lemma OnlySecondCommitsAt(db: Database, load: LoadId, fromA: Instant, toA: Instant, nowA: Instant,
                            fromB: Instant, toB: Instant, nowB: Instant, t: Instant)
    requires toA <= fromB || toB <= fromA
    requires Refresh(db, load, fromB, toB, nowB).Committed?
    ensures var ab := AfterRefresh(db, load, fromB, toB, nowB);
      var ba := AfterRefresh(ab, load, fromA, toA, nowA);
      && (Filter(RowAt(t), ab.measurements) == Filter(RowAt(t), ba.measurements) <==>
          (fromA <= t < toA ==> ContentAt(db, t) == {}))
      && (Filter(SnapshotBy(load), ab.snapshots) == Filter(SnapshotBy(load), ba.snapshots) <==>
          LocationsOf(db, load) == [])
  {
    NextCall(db, load, fromB, toB, nowB, fromA, toA, nowA, t);
    RowsAfter(db, load, fromB, toB, nowB, t);
    RowsAtContent(db, t);
    AfterCall(db, load, fromB, toB, nowB, load);
  }

  lemma OnlySecondCommitsSameRows(db: Database, load: LoadId, fromA: Instant, toA: Instant, nowA: Instant,
                                  fromB: Instant, toB: Instant, nowB: Instant)
    requires toA <= fromB || toB <= fromA
    requires Refresh(db, load, fromB, toB, nowB).Committed?
    ensures var ab := AfterRefresh(db, load, fromB, toB, nowB);
      SameRows(ab, AfterRefresh(ab, load, fromA, toA, nowA)) <==> BronzeWithin(db, fromA, toA) == []
  {
    var ab := AfterRefresh(db, load, fromB, toB, nowB);
    var ba := AfterRefresh(ab, load, fromA, toA, nowA);
    NothingInBronze(db, fromA, toA);
    forall t ensures Filter(RowAt(t), ab.measurements) == Filter(RowAt(t), ba.measurements) <==>
      (fromA <= t < toA ==> ContentAt(db, t) == {})
    {
      OnlySecondCommitsAt(db, load, fromA, toA, nowA, fromB, toB, nowB, t);
    }
  }

  lemma OnlySecondCommits(db: Database, load: LoadId, fromA: Instant, toA: Instant, nowA: Instant,
                          fromB: Instant, toB: Instant, nowB: Instant)
    requires toA <= fromB || toB <= fromA
    requires Refresh(db, load, fromA, toA, nowA).Rejected? && Refresh(db, load, fromB, toB, nowB).Committed?
    ensures SameTables(AfterBoth(db, load, fromA, toA, nowA, fromB, toB, nowB),
                       AfterBoth(db, load, fromB, toB, nowB, fromA, toA, nowA)) <==>
            BronzeWithin(db, fromA, toA) == [] && LocationsOf(db, load) == []
  {
    SameLoadSameTables(db, load, fromA, toA, nowA, fromB, toB, nowB);
    OnlySecondCommitsSameRows(db, load, fromA, toA, nowA, fromB, toB, nowB);
    OnlySecondCommitsAt(db, load, fromA, toA, nowA, fromB, toB, nowB, 0);
  }

  /**
   * Two calls of one load on disjoint windows leave the same tables in either order exactly when:
   * both commit and nothing is staged in either window; or the guard rejects one of them, whose
   * window is empty in bronze, and no location is staged; or it rejects both.
   */
  lemma SameLoadCommutesIff(db: Database, load: LoadId, fromA: Instant, toA: Instant, nowA: Instant,
                            fromB: Instant, toB: Instant, nowB: Instant)
    requires toA <= fromB || toB <= fromA
    ensures var ab := AfterBoth(db, load, fromA, toA, nowA, fromB, toB, nowB);
      var ba := AfterBoth(db, load, fromB, toB, nowB, fromA, toA, nowA);
      SameTables(ab, ba) <==> OrderIsIrrelevant(db, load, fromA, toA, nowA, fromB, toB, nowB)
  {
    match (Refresh(db, load, fromA, toA, nowA).Committed?, Refresh(db, load, fromB, toB, nowB).Committed?)
    case (true, true) => BothCommit(db, load, fromA, toA, nowA, fromB, toB, nowB);
    case (false, true) => OnlySecondCommits(db, load, fromA, toA, nowA, fromB, toB, nowB);
    case (true, false) => OnlySecondCommits(db, load, fromB, toB, nowB, fromA, toA, nowA);
    case (false, false) =>
  }

  lemma OneStagedCommits(db: Database, load: LoadId, from: Instant, to: Instant, now: Instant, m: Measurement)
    requires StagedOf(db, load) == [m]
    ensures Refresh(db, load, from, to, now).Committed?
  {
    FilterOne(Within(from, to), m);
    GuardIffUnique(StagedWithin(db, load, from, to));
  }

  lemma ContentAfterBoth(db: Database, load: LoadId, fromA: Instant, toA: Instant, nowA: Instant,
                         fromB: Instant, toB: Instant, nowB: Instant, t: Instant)
    requires (toA <= fromB || toB <= fromA) && Refresh(db, load, fromA, toA, nowA).Committed?
    ensures ContentAt(AfterBoth(db, load, fromA, toA, nowA, fromB, toB, nowB), t) ==
      if fromB <= t < toB then {}
      else if fromA <= t < toA then StagedAt(StagedOf(db, load), t) else ContentAt(db, t)
  {
    NextCall(db, load, fromA, toA, nowA, fromB, toB, nowB, t);
  }

  /** What is left of one staged measurement at its instant, after refreshes of two windows. */
  lemma OneStagedContent(db: Database, load: LoadId, m: Measurement, fromA: Instant, toA: Instant,
                         fromB: Instant, toB: Instant, now: Instant)
    requires StagedOf(db, load) == [m] && ContentAt(db, m.key.at) == {} && (toA <= fromB || toB <= fromA)
    ensures ContentAt(AfterBoth(db, load, fromA, toA, now, fromB, toB, now), m.key.at) ==
      if fromA <= m.key.at < toA then {m} else {}
  {
    OneStagedCommits(db, load, fromA, toA, now, m);
    ContentAfterBoth(db, load, fromA, toA, now, fromB, toB, now, m.key.at);
    assert StagedAt([m], m.key.at) == {m};
  }

  lemma OrderMatters(db: Database, load: LoadId, m: Measurement, t: Instant, now: Instant)
    requires StagedOf(db, load) == [m] && ContentAt(db, t) == {} && m.key.at == t
    ensures ContentAt(AfterBoth(db, load, t, t + 1, now, t + 1, t + 2, now), t) == {m}
    ensures ContentAt(AfterBoth(db, load, t + 1, t + 2, now, t, t + 1, now), t) == {}
  {
    OneStagedContent(db, load, m, t, t + 1, t + 1, t + 2, now);
    OneStagedContent(db, load, m, t + 1, t + 2, t, t + 1, now);
  }

  function OneStaged(m: Measurement, load: LoadId): Database {
    EMPTY.(measurementStaging := [StagingRow(load, m)])
  }

  lemma OneStagedRead(m: Measurement, load: LoadId)
    ensures StagedOf(OneStaged(m, load), load) == [m] && ContentAt(OneStaged(m, load), m.key.at) == {}
  {
    FilterAll(StagedBy(load), OneStaged(m, load).measurementStaging);
  }

  /** Of a load's two refreshes only the first finds what it staged: here its measurement stays, or is lost. */
  lemma OrderCanMatter(m: Measurement, load: LoadId, now: Instant)
    ensures var db, t := OneStaged(m, load), m.key.at;
      && ContentAt(AfterBoth(db, load, t, t + 1, now, t + 1, t + 2, now), t) == {m}
      && ContentAt(AfterBoth(db, load, t + 1, t + 2, now, t, t + 1, now), t) == {}
  {
    OneStagedRead(m, load);
    OrderMatters(OneStaged(m, load), load, m, m.key.at, now);
  }

  // ---- load summaries

  predicate OneSummaryPerLoad(rows: seq<SummaryRow>) {
    forall i, j :: 0 <= i < j < |rows| ==> rows[i].load != rows[j].load
  }

  /** A retried MERGE, with its new completion time, leaves the table as if it had been the only one for its load. */
  lemma LastMergeWins(rows: seq<SummaryRow>, row: SummaryRow, retry: SummaryRow)
    requires retry.load == row.load
    ensures Merge(Merge(rows, row), retry) == Merge(rows, retry)
  {
    var merged := Merge(rows, row);
    if i :| 0 <= i < |rows| && rows[i].load == row.load {
      assert merged[i].load == retry.load;
    } else {
      assert merged[|rows|].load == retry.load;
    }
  }

  /** The MERGE keeps one row per load, leaves the other loads' rows, and repeated has no further effect. */
  lemma MergeKeepsOneRow(rows: seq<SummaryRow>, row: SummaryRow)
    requires OneSummaryPerLoad(rows)
    ensures OneSummaryPerLoad(Merge(rows, row))
    ensures forall r :: r in Merge(rows, row) <==> r == row || (r in rows && r.load != row.load)
    ensures Merge(Merge(rows, row), row) == Merge(rows, row)
  {
    var merged := Merge(rows, row);
    if exists i :: 0 <= i < |rows| && rows[i].load == row.load {
      var i :| 0 <= i < |rows| && rows[i].load == row.load;
      assert merged[i] == row;
      forall r | r in rows && r.load != row.load ensures r in merged {
        var k :| 0 <= k < |rows| && rows[k] == r;
        assert merged[k] == r;
      }
    } else {
      assert merged[|rows|] == row;
    }
  }
}
