// The bronze schema as mutable tables: staging, the reconciling procedure, and the summary MERGE.
module Warehouse {
  import opened Bronze
  import opened History
  import opened Join
  import opened Json
  import opened StagedMeasurements
  import opened Tables
  import opened Wrappers

  /** An argument Python refuses, the procedure's own exception, or any other database failure. */
  datatype WarehouseError = ValueError | DuplicateStagedMeasurements | DatabaseError

  lemma ReplayOneMore(init: Database, ops: seq<Op>, op: Op)
    ensures Replay(init, ops + [op]) == Perform(Replay(init, ops), op)
  {
    assert (ops + [op])[..|ops|] == ops;
  }

  /** What a transaction sent after `ops` reports: a committed refresh its counts, anything else nothing. */
  function ReportOf(ops: seq<Op>, op: Op): Option<Diff> {
    if op.Reconcile? then
      var result := Refresh(Replay(EMPTY, ops), op.load, op.from, op.to, op.now);
      if result.Committed? then Some(result.diff) else None
    else None
  }

  /** What a transaction sent after `ops` reports is this. */
  ghost predicate Says<T>(report: (seq<Op>, Op) -> T, ops: seq<Op>, op: Op, said: T) {
    report(ops, op) == said
  }

  ghost predicate ReportedBy<T>(journal: seq<Op>, reports: seq<T>, report: (seq<Op>, Op) -> T, n: nat)
    requires n < |journal| == |reports|
  {
    Says(report, journal[..n], journal[n], reports[n])
  }

  /** Each transaction's report is what `report` makes of it and the transactions before it. */
  ghost predicate Faithful<T>(journal: seq<Op>, reports: seq<T>, report: (seq<Op>, Op) -> T) {
    && |journal| == |reports|
    && forall n :: 0 <= n < |journal| ==> ReportedBy(journal, reports, report, n)
  }

  lemma OneMoreReport<T>(journal: seq<Op>, reports: seq<T>, report: (seq<Op>, Op) -> T, op: Op)
    requires Faithful(journal, reports, report)
    ensures Faithful(journal + [op], reports + [report(journal, op)], report)
  {
    var more, filed := journal + [op], reports + [report(journal, op)];
    forall n | 0 <= n < |more| ensures ReportedBy(more, filed, report, n) {
      assert more[..n] == journal[..n];
      assert n < |journal| ==> ReportedBy(journal, reports, report, n);
    }
  }

  lemma FaithfulAt<T>(journal: seq<Op>, reports: seq<T>, report: (seq<Op>, Op) -> T, n: nat)
    requires Faithful(journal, reports, report) && n < |journal|
    ensures Says(report, journal[..n], journal[n], reports[n])
  {
    assert ReportedBy(journal, reports, report, n);
  }

  lemma SaidLast<T>(ops: seq<Op>, op: Op, reports: seq<T>, said: T, report: (seq<Op>, Op) -> T)
    requires Faithful(ops + [op], reports + [said], report)
    ensures Says(report, ops, op, said)
  {
    var journal, filed := ops + [op], reports + [said];
    assert journal[..|ops|] == ops;
    FaithfulAt(journal, filed, report, |ops|);
  }

  class BronzeSchema {
    const parse: Parse
    var measurements: seq<BronzeRow>
    var measurementStaging: seq<StagingRow>
    var snapshots: seq<SnapshotRow>
    var locationStaging: seq<LocationStagingRow>
    var summaries: seq<SummaryRow>
    // The transactions committed so far, in order, and the counts each refresh reported.
    ghost var journal: seq<Op>
    ghost var reports: seq<Option<Diff>>

    function Contents(): Database
      reads this
    {
      Database(measurements, measurementStaging, snapshots, locationStaging, summaries)
    }

    ghost predicate Valid()
      reads this
    {
      Contents() == Replay(EMPTY, journal) && Faithful(journal, reports, ReportOf)
    }

    constructor (parse: Parse)
      ensures Valid() && journal == [] && reports == [] && this.parse == parse
    {
      this.parse := parse;
      measurements, measurementStaging, snapshots, locationStaging, summaries := [], [], [], [], [];
      journal, reports := [], [];
    }

    /** Enters a transaction whose effect the tables already show into the journal. */
    ghost method Commit(op: Op)
      requires Faithful(journal, reports, ReportOf) && Contents() == Perform(Replay(EMPTY, journal), op)
      modifies this`journal, this`reports
      ensures Valid() && journal == old(journal) + [op]
      ensures reports == old(reports) + [ReportOf(old(journal), op)]
    {
      ReplayOneMore(EMPTY, journal, op);
      OneMoreReport(journal, reports, ReportOf, op);
      journal, reports := journal + [op], reports + [ReportOf(journal, op)];
    }

    method Rollback(saved: Database)
      modifies this
      ensures Contents() == saved && journal == old(journal) && reports == old(reports)
    {
      measurements, measurementStaging := saved.measurements, saved.measurementStaging;
      snapshots, locationStaging, summaries := saved.snapshots, saved.locationStaging, saved.summaries;
    }

    /** Deletes the load's staged rows and inserts the new ones, one by one; a failure leaves it half done. */
    method InsertStaging(load: LoadId, staged: seq<StagedMeasurement>, fault: nat) returns (inserted: bool)
      modifies this`measurementStaging
      ensures inserted ==> Castable(parse, staged)
      ensures inserted ==> Contents() == Bronze.StageMeasurements(old(Contents()), load, CastAll(parse, staged))
      ensures Castable(parse, staged) && fault == 0 ==> inserted
      ensures 1 <= fault <= |staged| + 1 ==> !inserted
    {
      if fault == 1 {
        return false;
      }
      measurementStaging := Filter(NotStagedBy(load), measurementStaging);
      ghost var kept := measurementStaging;
      for i := 0 to |staged|
        invariant Castable(parse, staged[..i]) && !(2 <= fault < i + 2)
        invariant measurementStaging == kept + StagingRows(load, CastAll(parse, staged[..i]))
      {
        if fault == i + 2 || parse(staged[i].periodFrom).None? {
          return false;
        }
        measurementStaging := measurementStaging + [StagingRow(load, Cast(parse, staged[i]))];
      }
      assert staged[..|staged|] == staged;
      inserted := true;
    }

    /** Replaces the rows staged under one load ID. `fault` names a statement that fails, if any. */
    method StageMeasurements(load: LoadId, staged: seq<StagedMeasurement>, fault: nat)
      returns (error: Option<WarehouseError>)
      requires Valid()
      modifies this
      ensures Valid()
      ensures error.Some? ==> Contents() == old(Contents()) && journal == old(journal) && reports == old(reports)
      ensures error.None? ==> load != "" && Castable(parse, staged)
      ensures error.None? ==> journal == old(journal) + [Stage(load, CastAll(parse, staged))]
      ensures error.None? ==> reports == old(reports) + [None]
      ensures load != "" && Castable(parse, staged) && fault == 0 ==> error.None?
      ensures 1 <= fault <= |staged| + 1 ==> error.Some?
    {
      if load == "" {
        return Some(ValueError);
      }
      var saved := Contents();
      var inserted := InsertStaging(load, staged, fault);
      if !inserted {
        Rollback(saved);
        return Some(DatabaseError);
      }
      Commit(Stage(load, CastAll(parse, staged)));
      error := None;
    }

    method InsertLocations(load: LoadId, raws: seq<Json>, fault: nat) returns (inserted: bool)
      modifies this`locationStaging
      ensures inserted ==> Contents() == Bronze.StageLocations(old(Contents()), load, raws)
      ensures fault == 0 ==> inserted
      ensures 1 <= fault <= |raws| + 1 ==> !inserted
    {
      if fault == 1 {
        return false;
      }
      locationStaging := Filter(NotLocatedBy(load), locationStaging);
      ghost var kept := locationStaging;
      for i := 0 to |raws|
        invariant locationStaging == kept + LocationRows(load, raws[..i]) && !(2 <= fault < i + 2)
      {
        if fault == i + 2 {
          return false;
        }
        locationStaging := locationStaging + [LocationStagingRow(load, raws[i])];
      }
      assert raws[..|raws|] == raws;
      inserted := true;
    }

    /** Replaces the raw locations staged under one load ID. */
    method StageLocations(load: LoadId, raws: seq<Json>, fault: nat) returns (error: Option<WarehouseError>)
      requires Valid()
      modifies this
      ensures Valid()
      ensures error.Some? ==> Contents() == old(Contents()) && journal == old(journal) && reports == old(reports)
      ensures error.None? ==> load != "" && journal == old(journal) + [StageLocs(load, raws)]
      ensures error.None? ==> reports == old(reports) + [None]
      ensures load != "" && fault == 0 ==> error.None?
      ensures 1 <= fault <= |raws| + 1 ==> error.Some?
    {
      if load == "" {
        return Some(ValueError);
      }
      var saved := Contents();
      var inserted := InsertLocations(load, raws, fault);
      if !inserted {
        Rollback(saved);
        return Some(DatabaseError);
      }
      Commit(StageLocs(load, raws));
      error := None;
    }

    /** The procedure's statements from the duplicate guard to COMMIT; a failure leaves them half done. */
    method ReconcileStatements(load: LoadId, from: Instant, to: Instant, now: Instant, fault: nat)
      returns (r: Result<Diff, WarehouseError>)
      modifies this
      ensures journal == old(journal) && reports == old(reports)
      ensures r.Success? ==> Refresh(old(Contents()), load, from, to, now) == Committed(Contents(), r.value)
      ensures r == Failure(DuplicateStagedMeasurements) ==> Refresh(old(Contents()), load, from, to, now).Rejected?
      ensures fault == 0 ==>
        (r.Success? <==> Refresh(old(Contents()), load, from, to, now).Committed?)
      ensures 1 <= fault <= 9 && r.Success? ==> fault in {3, 4} && !r.value.BronzeChanged()
    {
      if fault == 1 {
        return Failure(DatabaseError);
      }
      var duplicateCount := |DuplicatedKeys(StagedWithin(Contents(), load, from, to))|;
      if duplicateCount > 0 {
        return Failure(DuplicateStagedMeasurements);
      }
      if fault == 2 {
        return Failure(DatabaseError);
      }
      var diff := DiffOf(StagedWithin(Contents(), load, from, to), BronzeWithin(Contents(), from, to));
      var bronzeChanged := diff.newCount + diff.changedCount + diff.absentCount > 0;
      if bronzeChanged {
        if fault == 3 {
          return Failure(DatabaseError);
        }
        measurements := Filter(RowOutside(from, to), measurements);
        if fault == 4 {
          return Failure(DatabaseError);
        }
        measurements := measurements + BronzeRows(StagedWithin(Contents(), load, from, to), load, now);
      }
      if fault == 5 {
        return Failure(DatabaseError);
      }
      snapshots := Filter(SnapshotNotBy(load), snapshots);
      if fault == 6 {
        return Failure(DatabaseError);
      }
      snapshots := snapshots + SnapshotRows(LocationsOf(Contents(), load), load, to, now);
      if fault == 7 {
        return Failure(DatabaseError);
      }
      measurementStaging := Filter(NotStagedBy(load), measurementStaging);
      if fault == 8 {
        return Failure(DatabaseError);
      }
      locationStaging := Filter(NotLocatedBy(load), locationStaging);
      if fault == 9 {
        return Failure(DatabaseError);
      }
      r := Success(diff);
    }

    /**
     * REFRESH_STAGED_MEASUREMENTS behind its Python wrapper: one transaction that commits
     * whole or, on any failure, leaves every table as it was.
     */
    method RefreshWindow(load: LoadId, from: Instant, to: Instant, now: Instant, fault: nat)
      returns (r: Result<Diff, WarehouseError>)
      requires Valid()
      modifies this
      ensures Valid()
      ensures r.Failure? ==> Contents() == old(Contents()) && journal == old(journal) && reports == old(reports)
      ensures r.Success? ==> load != "" && from < to
      ensures r.Success? ==> Refresh(old(Contents()), load, from, to, now) == Committed(Contents(), r.value)
      ensures r.Success? ==> Commits(EMPTY, old(journal), Reconcile(load, from, to, now))
      ensures r.Success? ==> journal == old(journal) + [Reconcile(load, from, to, now)]
      ensures r.Success? ==> reports == old(reports) + [Some(r.value)]
      ensures r == Failure(DuplicateStagedMeasurements) ==>
        !Commits(EMPTY, old(journal), Reconcile(load, from, to, now))
      ensures fault == 0 && load != "" && from < to && Commits(EMPTY, old(journal), Reconcile(load, from, to, now)) ==>
        r.Success?
      ensures 1 <= fault <= 9 && r.Success? ==> fault in {3, 4} && !r.value.BronzeChanged()
    {
      if load == "" || from >= to {
        return Failure(ValueError);
      }
      ReplayCommits(EMPTY, journal, Reconcile(load, from, to, now));
      var saved := Contents();
      r := ReconcileStatements(load, from, to, now, fault);
      if r.Failure? {
        Rollback(saved);
      } else {
        Commit(Reconcile(load, from, to, now));
      }
    }

    /** Upserts the summary of one completed refresh. */
    method RecordLoadSummary(load: LoadId, loadType: string, from: Instant, to: Instant, apiRecordCount: int,
                             diff: Diff, now: Instant, fault: nat)
      returns (error: Option<WarehouseError>)
      requires Valid()
      modifies this
      ensures Valid()
      ensures error.Some? ==> Contents() == old(Contents()) && journal == old(journal) && reports == old(reports)
      ensures error.None? ==> load != "" && loadType != "" && from < to && apiRecordCount >= 0
      ensures error.None? ==>
        (var row := SummaryRow(load, loadType, from, to, apiRecordCount, diff, diff.BronzeChanged(), now);
         journal == old(journal) + [Summarise(load, row)] && reports == old(reports) + [None])
      ensures fault == 0 && load != "" && loadType != "" && from < to && apiRecordCount >= 0 ==> error.None?
      ensures fault == 1 ==> error.Some?
    {
      if load == "" || loadType == "" || from >= to || apiRecordCount < 0 {
        return Some(ValueError);
      }
      if fault == 1 {
        return Some(DatabaseError);
      }
      var bronzeChanged := diff.newCount != 0 || diff.changedCount != 0 || diff.absentCount != 0;
      var row := SummaryRow(load, loadType, from, to, apiRecordCount, diff, bronzeChanged, now);
      summaries := Merge(summaries, row);
      Commit(Summarise(load, row));
      error := None;
    }
  }
}
