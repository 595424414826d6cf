// Runs of committed transactions, and what they leave behind.
module History {
  import opened Bronze
  import opened Join
  import opened Json
  import opened Tables
  import opened Wrappers

  /** A transaction sent to the database; a refresh the guard rejects commits nothing. */
  datatype Op =
    | StageLocs(load: LoadId, raws: seq<Json>)
    | Stage(load: LoadId, ms: seq<Measurement>)
    | Reconcile(load: LoadId, from: Instant, to: Instant, now: Instant)
    | Summarise(load: LoadId, row: SummaryRow)

  function Perform(db: Database, op: Op): Database {
    match op
    case StageLocs(load, raws) => StageLocations(db, load, raws)
    case Stage(load, ms) => StageMeasurements(db, load, ms)
    case Reconcile(load, from, to, now) => AfterRefresh(db, load, from, to, now)
    case Summarise(_, row) => db.(summaries := Merge(db.summaries, row))
  }

  function Replay(init: Database, ops: seq<Op>): Database {
    if ops == [] then init else Perform(Replay(init, ops[..|ops| - 1]), ops[|ops| - 1])
  }

  // ---- the same things read off the list of operations alone

  /** What a load has staged and not yet had refreshed. */
  function StagedNow(init: Database, ops: seq<Op>, load: LoadId): seq<Measurement>
    decreases |ops|, 0
  {
    if ops == [] then StagedOf(init, load)
    else
      var front, last := ops[..|ops| - 1], ops[|ops| - 1];
      if last.Stage? && last.load == load then last.ms
      else if last.load == load && Commits(init, front, last) then []
      else StagedNow(init, front, load)
  }

  /** Whether a refresh issued after `ops` commits: the identities staged in its window are unique. */
  predicate Commits(init: Database, ops: seq<Op>, op: Op)
    decreases |ops|, 1
  {
    op.Reconcile? && Unique(Filter(Within(op.from, op.to), StagedNow(init, ops, op.load)))
  }

  function LocationsNow(init: Database, ops: seq<Op>, load: LoadId): seq<Json>
    decreases |ops|, 0
  {
    if ops == [] then LocationsOf(init, load)
    else
      var front, last := ops[..|ops| - 1], ops[|ops| - 1];
      if last.StageLocs? && last.load == load then last.raws
      else if last.load == load && Commits(init, front, last) then []
      else LocationsNow(init, front, load)
  }

  /** The last committed refresh whose half-open window covers t, if any. */
  function LastCover(init: Database, ops: seq<Op>, t: Instant): (n: Option<nat>)
    ensures n.Some? ==> n.value < |ops|
  {
    if ops == [] then None
    else
      var front, last := ops[..|ops| - 1], ops[|ops| - 1];
      if Commits(init, front, last) && last.from <= t < last.to then Some(|ops| - 1) else LastCover(init, front, t)
  }

  function LastRefreshOf(init: Database, ops: seq<Op>, load: LoadId): (n: Option<nat>)
    ensures n.Some? ==> n.value < |ops| && ops[n.value].Reconcile? && ops[n.value].load == load
  {
    if ops == [] then None
    else
      var front, last := ops[..|ops| - 1], ops[|ops| - 1];
      if Commits(init, front, last) && last.load == load then Some(|ops| - 1) else LastRefreshOf(init, front, load)
  }

  // ---- agreement with the database

  lemma {:induction false} ReplayStaging(init: Database, ops: seq<Op>, load: LoadId)
    ensures StagedOf(Replay(init, ops), load) == StagedNow(init, ops, load)
    ensures LocationsOf(Replay(init, ops), load) == LocationsNow(init, ops, load)
  {
    if ops == [] {
    } else {
      var front, last := ops[..|ops| - 1], ops[|ops| - 1];
      var db := Replay(init, front);
      ReplayStaging(init, front, load);
      match last
      case StageLocs(l, raws) => LocationsAfterStaging(db, l, raws, load);
      case Stage(l, ms) => StagedAfterStaging(db, l, ms, load);
      case Reconcile(l, from, to, now) =>
        ReplayCommits(init, front, last);
        if Refresh(db, l, from, to, now).Committed? {
          RefreshConsumesStaging(db, l, from, to, now, load);
        }
      case Summarise(_, _) =>
    }
  }

  lemma {:induction false} ReplayCommits(init: Database, ops: seq<Op>, op: Op)
    requires op.Reconcile?
    ensures Commits(init, ops, op) <==> Refresh(Replay(init, ops), op.load, op.from, op.to, op.now).Committed?
  {
    ReplayStaging(init, ops, op.load);
    GuardIffUnique(StagedWithin(Replay(init, ops), op.load, op.from, op.to));
  }

  /** From unique bronze identities, no run of operations ever creates a repeated one. */
  lemma {:induction false} ReplayKeepsUnique(init: Database, ops: seq<Op>)
    requires UniqueBronze(init)
    ensures UniqueBronze(Replay(init, ops))
  {
    if ops == [] {
    } else {
      var front, last := ops[..|ops| - 1], ops[|ops| - 1];
      ReplayKeepsUnique(init, front);
      var db := Replay(init, front);
      if last.Reconcile? && Refresh(db, last.load, last.from, last.to, last.now).Committed? {
        RefreshKeepsUnique(db, last.load, last.from, last.to, last.now);
      }
    }
  }

  /** What was staged at t for the last committed refresh covering it, or the initial content. */
  function LastCovering(init: Database, ops: seq<Op>, t: Instant): set<Measurement> {
    match LastCover(init, ops, t)
    case None => ContentAt(init, t)
    case Some(n) => StagedAt(StagedNow(init, ops[..n], ops[n].load), t)
  }

  lemma LastCoveringStep(init: Database, ops: seq<Op>, t: Instant)
    requires ops != []
    ensures var front, last := ops[..|ops| - 1], ops[|ops| - 1];
      LastCovering(init, ops, t) ==
        if Commits(init, front, last) && last.from <= t < last.to then StagedAt(StagedNow(init, front, last.load), t)
        else LastCovering(init, front, t)
  {
    var front := ops[..|ops| - 1];
    var n := LastCover(init, front, t);
    assert n.Some? ==> front[..n.value] == ops[..n.value] && front[n.value] == ops[n.value];
  }

  /**
   * Last covering load wins: after any operations, bronze holds at each instant what had been
   * staged when the last committed refresh covering it ran, and its initial content if none did.
   */
  lemma {:induction false} LastCoveringLoadWins(init: Database, ops: seq<Op>, t: Instant)
    ensures ContentAt(Replay(init, ops), t) == LastCovering(init, ops, t)
  {
    if ops == [] {
    } else {
      var front, last := ops[..|ops| - 1], ops[|ops| - 1];
      LastCoveringLoadWins(init, front, t);
      LastCoveringStep(init, ops, t);
      if last.Reconcile? {
        ReplayCommits(init, front, last);
        ReplayStaging(init, front, last.load);
        if Commits(init, front, last) {
          RefreshContent(Replay(init, front), last.load, last.from, last.to, last.now, t);
        }
      }
    }
  }

  /** Where a bronze row came from: an operation that staged it in its window, under the row's load. */
  ghost predicate Refreshed(init: Database, ops: seq<Op>, n: nat, r: BronzeRow)
    requires n < |ops|
  {
    && Commits(init, ops[..n], ops[n])
    && r == BronzeRow(r.m, ops[n].load, ops[n].now)
    && ops[n].from <= r.m.key.at < ops[n].to
    && r.m in StagedNow(init, ops[..n], ops[n].load)
  }

  /** Provenance: every bronze row was staged by its own load for a committed refresh covering it. */
  lemma {:induction false} Provenance(init: Database, ops: seq<Op>, r: BronzeRow)
    requires r in Replay(init, ops).measurements && r !in init.measurements
    ensures exists n :: 0 <= n < |ops| && Refreshed(init, ops, n, r)
  {
    if ops == [] {
    } else {
      var front, last := ops[..|ops| - 1], ops[|ops| - 1];
      var db := Replay(init, front);
      if r in db.measurements {
        Provenance(init, front, r);
        var n :| 0 <= n < |front| && Refreshed(init, front, n, r);
        assert front[..n] == ops[..n];
        assert Refreshed(init, ops, n, r);
      } else {
        ReplayCommits(init, front, last);
        RefreshRowsIn(db, last.load, last.from, last.to, last.now, r);
        ReplayStaging(init, front, last.load);
        assert Refreshed(init, ops, |ops| - 1, r);
      }
    }
  }

  /** The location list staged for the load's last committed refresh, stamped with its end, or the initial snapshot. */
  function LastSnapshot(init: Database, ops: seq<Op>, load: LoadId): seq<SnapshotRow> {
    match LastRefreshOf(init, ops, load)
    case None => Filter(SnapshotBy(load), init.snapshots)
    case Some(n) => SnapshotRows(LocationsNow(init, ops[..n], load), load, ops[n].to, ops[n].now)
  }

  lemma LastSnapshotStep(init: Database, ops: seq<Op>, load: LoadId)
    requires ops != []
    ensures var front, last := ops[..|ops| - 1], ops[|ops| - 1];
      LastSnapshot(init, ops, load) ==
        if Commits(init, front, last) && last.load == load
        then SnapshotRows(LocationsNow(init, front, load), load, last.to, last.now)
        else LastSnapshot(init, front, load)
  {
    var front := ops[..|ops| - 1];
    var n := LastRefreshOf(init, front, load);
    assert n.Some? ==> front[..n.value] == ops[..n.value] && front[n.value] == ops[n.value];
  }

  /** A snapshot after one more operation. */
  lemma SnapshotStep(init: Database, front: seq<Op>, last: Op, load: LoadId)
    ensures Filter(SnapshotBy(load), Perform(Replay(init, front), last).snapshots) ==
      if Commits(init, front, last) && last.load == load
      then SnapshotRows(LocationsNow(init, front, load), load, last.to, last.now)
      else Filter(SnapshotBy(load), Replay(init, front).snapshots)
  {
    if last.Reconcile? {
      ReplayCommits(init, front, last);
      ReplayStaging(init, front, last.load);
      AfterCall(Replay(init, front), last.load, last.from, last.to, last.now, load);
    }
  }

  /** Each load's snapshot is what its last committed refresh published. */
  lemma {:induction false} SnapshotIsLastStaged(init: Database, ops: seq<Op>, load: LoadId)
    ensures Filter(SnapshotBy(load), Replay(init, ops).snapshots) == LastSnapshot(init, ops, load)
  {
    if ops == [] {
    } else {
      var front, last := ops[..|ops| - 1], ops[|ops| - 1];
      SnapshotIsLastStaged(init, front, load);
      SnapshotStep(init, front, last, load);
      LastSnapshotStep(init, ops, load);
    }
  }

  /** Only a committed refresh touches MEASUREMENTS or LOCATION_SNAPSHOTS, and it does so in one step. */
  lemma OnlyRefreshPublishes(init: Database, ops: seq<Op>, op: Op)
    requires var db := Replay(init, ops);
      Perform(db, op).measurements != db.measurements || Perform(db, op).snapshots != db.snapshots
    ensures Commits(init, ops, op)
  {
    if op.Reconcile? {
      ReplayCommits(init, ops, op);
    }
  }

  // ---- loads do not interfere through the shared staging tables

  function OpsOf(load: LoadId): Op -> bool {
    (op: Op) => op.load == load
  }

  /** What is staged under a load depends on that load's own operations only. */
  lemma {:induction false} StagingIsPerLoad(init: Database, ops: seq<Op>, load: LoadId)
    ensures StagedNow(init, ops, load) == StagedNow(init, Filter(OpsOf(load), ops), load)
    ensures LocationsNow(init, ops, load) == LocationsNow(init, Filter(OpsOf(load), ops), load)
  {
    if ops == [] {
    } else {
      var front, last := ops[..|ops| - 1], ops[|ops| - 1];
      StagingIsPerLoad(init, front, load);
      var own := Filter(OpsOf(load), front);
      if last.load == load {
        var kept := Filter(OpsOf(load), ops);
        assert kept == own + [last] && kept[..|kept| - 1] == own;
        assert Commits(init, own, last) == Commits(init, front, last);
      } else {
        assert Filter(OpsOf(load), ops) == own;
      }
    }
  }

  /** Restaging replaces in the tables whatever an earlier, crashed attempt left under the same load. */
  lemma RestagingReplacesLeftovers(init: Database, ops: seq<Op>, load: LoadId, raws: seq<Json>, ms: seq<Measurement>)
    ensures var db := Replay(init, ops + [StageLocs(load, raws), Stage(load, ms)]);
      && StagedOf(db, load) == ms && LocationsOf(db, load) == raws
      && db.measurements == Replay(init, ops).measurements && db.snapshots == Replay(init, ops).snapshots
  {
    var again := ops + [StageLocs(load, raws), Stage(load, ms)];
    assert again[..|again| - 1] == ops + [StageLocs(load, raws)];
    assert again[..|again| - 1][..|ops|] == ops;
    ReplayStaging(init, again, load);
  }

  function OpsNotOf(load: LoadId): Op -> bool {
    (op: Op) => op.load != load
  }

  /** A load that has staged, any number of times and in whatever part, and never came to its refresh or summary. */
  predicate NeverRefreshed(ops: seq<Op>, load: LoadId) {
    forall op :: op in ops && op.load == load ==> op.Stage? || op.StageLocs?
  }

  /** The two databases differ at most in what they hold staged under one load. */
  ghost predicate SameExceptStagingOf(db: Database, db': Database, load: LoadId) {
    && db'.measurements == db.measurements && db'.snapshots == db.snapshots && db'.summaries == db.summaries
    && forall l :: l != load ==> StagedOf(db', l) == StagedOf(db, l) && LocationsOf(db', l) == LocationsOf(db, l)
  }

  lemma ForeignStepAgrees(db: Database, db': Database, op: Op, load: LoadId)
    requires SameExceptStagingOf(db, db', load) && op.load != load
    ensures SameExceptStagingOf(Perform(db, op), Perform(db', op), load)
  {
    forall l | l != load
      ensures StagedOf(Perform(db', op), l) == StagedOf(Perform(db, op), l)
      ensures LocationsOf(Perform(db', op), l) == LocationsOf(Perform(db, op), l)
    {
      assert StagedOf(db', l) == StagedOf(db, l) && LocationsOf(db', l) == LocationsOf(db, l);
      match op
      case StageLocs(o, raws) =>
        LocationsAfterStaging(db, o, raws, l);
        LocationsAfterStaging(db', o, raws, l);
      case Stage(o, ms) =>
        StagedAfterStaging(db, o, ms, l);
        StagedAfterStaging(db', o, ms, l);
      case Reconcile(o, from, to, now) =>
        ForeignStagingIsInert(db, db', o, from, to, now);
        AfterCall(db, o, from, to, now, l);
        AfterCall(db', o, from, to, now, l);
      case Summarise(_, _) =>
    }
    if op.Reconcile? {
      ForeignStagingIsInert(db, db', op.load, op.from, op.to, op.now);
    }
  }

  lemma OwnStagingAgrees(db: Database, op: Op)
    requires op.Stage? || op.StageLocs?
    ensures SameExceptStagingOf(Perform(db, op), db, op.load)
  {
    forall l | l != op.load
      ensures StagedOf(Perform(db, op), l) == StagedOf(db, l) && LocationsOf(Perform(db, op), l) == LocationsOf(db, l)
    {
      match op
      case StageLocs(o, raws) => LocationsAfterStaging(db, o, raws, l);
      case Stage(o, ms) => StagedAfterStaging(db, o, ms, l);
    }
  }

  /**
   * A load that crashed before its refresh is invisible: without its operations, bronze, the
   * snapshots, the summaries and every other load's staging would be exactly the same.
   */
  lemma {:induction false} CrashedLoadIsInvisible(init: Database, ops: seq<Op>, load: LoadId)
    requires NeverRefreshed(ops, load)
    ensures SameExceptStagingOf(Replay(init, ops), Replay(init, Filter(OpsNotOf(load), ops)), load)
  {
    if ops == [] {
    } else {
      var front, last := ops[..|ops| - 1], ops[|ops| - 1];
      assert ops == front + [last];
      CrashedLoadIsInvisible(init, front, load);
      var others := Filter(OpsNotOf(load), front);
      if last.load == load {
        assert last in ops;
        OwnStagingAgrees(Replay(init, front), last);
        assert Filter(OpsNotOf(load), ops) == others;
      } else {
        ForeignStepAgrees(Replay(init, front), Replay(init, others), last, load);
        var kept := Filter(OpsNotOf(load), ops);
        assert kept == others + [last] && kept[..|kept| - 1] == others;
      }
    }
  }

  /** The row last recorded for a load, or its initial rows. */
  predicate IsLastRecorded(init: Database, ops: seq<Op>, row: SummaryRow) {
    if ops == [] then row in init.summaries
    else
      var last := ops[|ops| - 1];
      if last.Summarise? && last.row.load == row.load then last.row == row
      else IsLastRecorded(init, ops[..|ops| - 1], row)
  }

  /** The summary table keeps at most one row per load through any operations. */
  lemma {:induction false} ReplayKeepsOneSummary(init: Database, ops: seq<Op>)
    requires OneSummaryPerLoad(init.summaries)
    ensures OneSummaryPerLoad(Replay(init, ops).summaries)
  {
    if ops == [] {
    } else {
      var front, last := ops[..|ops| - 1], ops[|ops| - 1];
      ReplayKeepsOneSummary(init, front);
      if last.Summarise? {
        MergeKeepsOneRow(Replay(init, front).summaries, last.row);
      }
    }
  }

  /** The summary table holds, for each load, exactly the row last recorded. */
  lemma {:induction false} SummaryIsLastRecorded(init: Database, ops: seq<Op>, row: SummaryRow)
    requires OneSummaryPerLoad(init.summaries)
    ensures row in Replay(init, ops).summaries <==> IsLastRecorded(init, ops, row)
  {
    if ops == [] {
    } else {
      var front, last := ops[..|ops| - 1], ops[|ops| - 1];
      SummaryIsLastRecorded(init, front, row);
      ReplayKeepsOneSummary(init, front);
      if last.Summarise? {
        MergeKeepsOneRow(Replay(init, front).summaries, last.row);
      }
    }
  }
}
