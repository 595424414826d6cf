// The hourly ingest run: three tasks in a chain, their retries, and a crash possible after every commit.
module Dag {
  import opened Bronze
  import opened Client
  import opened History
  import opened Ingest
  import opened Join
  import opened Json
  import opened StagedMeasurements
  import opened Times
  import opened Warehouse
  import opened Wrappers

  datatype StagingSummary = StagingSummary(load: LoadId, locationCount: nat, sensorCount: nat, apiRecordCount: nat,
                                           stagedRecordCount: nat, excludedRecordCount: nat,
                                           serverErrorSensorCount: nat)

  datatype RefreshSummary = RefreshSummary(staging: StagingSummary, diff: Diff)

  datatype AssetEvent = AssetEvent(load: LoadId, w: Window, locationCount: nat, apiRecordCount: nat,
                                   serverErrorSensorCount: nat, diff: Diff)

  /** What goes wrong in one run: statements that fail, and tasks that die after a commit. */
  datatype Faults = Faults(stageLocations: nat, diesBetweenStages: bool, stageMeasurements: nat, diesStaged: bool,
                           refresh: nat, diesRefreshed: bool,
                           record: nat -> nat, diesRecorded: nat -> bool)

  const RECORD_RETRIES := 1

  ghost predicate ReportedAt(journal: seq<Op>, reports: seq<Option<Diff>>, n: nat,
                             load: LoadId, from: Instant, to: Instant, diff: Diff)
    requires n < |journal|
  {
    && n < |reports| && reports[n] == Some(diff)
    && journal[n].Reconcile? && journal[n].load == load && journal[n].from == from && journal[n].to == to
  }

  /** The load's refresh of this window committed at some point of the journal and reported these counts. */
  ghost predicate RefreshedAs(journal: seq<Op>, reports: seq<Option<Diff>>, load: LoadId, from: Instant, to: Instant,
                              diff: Diff)
  {
    exists n :: 0 <= n < |journal| && ReportedAt(journal, reports, n, load, from, to, diff)
  }

  /** Every summary row stands for a committed refresh of its load. */
  ghost predicate SummariesBacked(journal: seq<Op>, reports: seq<Option<Diff>>, rows: seq<SummaryRow>) {
    forall row :: row in rows ==> RefreshedAs(journal, reports, row.load, row.from, row.to, row.diff)
  }

  function SummarisedLoads(rows: seq<SummaryRow>): set<LoadId> {
    set row | row in rows :: row.load
  }

  /** Every Asset event stands for a summary row of its load and a refresh committed with its counts. */
  ghost predicate AssetsBacked(journal: seq<Op>, reports: seq<Option<Diff>>, rows: seq<SummaryRow>,
                               assets: seq<AssetEvent>)
  {
    forall e :: e in assets ==>
      && e.load in SummarisedLoads(rows)
      && RefreshedAs(journal, reports, e.load, e.w.from, e.w.to, e.diff)
  }

  ghost predicate Backed(journal: seq<Op>, reports: seq<Option<Diff>>, rows: seq<SummaryRow>, assets: seq<AssetEvent>) {
    && |journal| == |reports|
    && SummariesBacked(journal, reports, rows)
    && AssetsBacked(journal, reports, rows, assets)
  }

  lemma RefreshStaysCommitted(journal: seq<Op>, reports: seq<Option<Diff>>, op: Op, report: Option<Diff>,
                              load: LoadId, from: Instant, to: Instant, diff: Diff)
    requires |journal| == |reports| && RefreshedAs(journal, reports, load, from, to, diff)
    ensures RefreshedAs(journal + [op], reports + [report], load, from, to, diff)
  {
    var n :| 0 <= n < |journal| && ReportedAt(journal, reports, n, load, from, to, diff);
    assert ReportedAt(journal + [op], reports + [report], n, load, from, to, diff);
  }

  /** A transaction that leaves the summaries alone keeps every event and summary backed. */
  lemma BackingGrows(journal: seq<Op>, reports: seq<Option<Diff>>, rows: seq<SummaryRow>, assets: seq<AssetEvent>,
                     op: Op, report: Option<Diff>)
    requires Backed(journal, reports, rows, assets)
    ensures Backed(journal + [op], reports + [report], rows, assets)
  {
    forall row | row in rows
      ensures RefreshedAs(journal + [op], reports + [report], row.load, row.from, row.to, row.diff)
    {
      RefreshStaysCommitted(journal, reports, op, report, row.load, row.from, row.to, row.diff);
    }
    forall e | e in assets ensures RefreshedAs(journal + [op], reports + [report], e.load, e.w.from, e.w.to, e.diff) {
      RefreshStaysCommitted(journal, reports, op, report, e.load, e.w.from, e.w.to, e.diff);
    }
  }

  /** So does the MERGE of a summary whose refresh has committed. */
  lemma MergeKeepsBacking(journal: seq<Op>, reports: seq<Option<Diff>>, rows: seq<SummaryRow>, assets: seq<AssetEvent>,
                          row: SummaryRow)
    requires Backed(journal, reports, rows, assets) && OneSummaryPerLoad(rows)
    requires RefreshedAs(journal, reports, row.load, row.from, row.to, row.diff)
    ensures Backed(journal, reports, Merge(rows, row), assets) && row in Merge(rows, row)
  {
    MergeKeepsOneRow(rows, row);
    forall e | e in assets ensures e.load in SummarisedLoads(Merge(rows, row)) {
      var kept :| kept in rows && kept.load == e.load;
      assert (if kept.load == row.load then row else kept) in Merge(rows, row);
    }
  }

  /** A refresh that a report stands for is the procedure, run on what was there by then, and committed. */
  lemma ReportedRefreshCommitted(journal: seq<Op>, reports: seq<Option<Diff>>, n: nat, load: LoadId, from: Instant,
                                 to: Instant, diff: Diff)
    requires Faithful(journal, reports, ReportOf) && n < |journal|
    requires ReportedAt(journal, reports, n, load, from, to, diff)
    ensures journal[n] == Reconcile(load, from, to, journal[n].now)
    ensures var result := Refresh(Replay(EMPTY, journal[..n]), load, from, to, journal[n].now);
      result.Committed? && result.diff == diff
  {
    FaithfulAt(journal, reports, ReportOf, n);
  }

  /** An emitted event or a recorded summary means that the procedure, run on what was there by then, committed. */
  lemma BackedRefreshCommitted(journal: seq<Op>, reports: seq<Option<Diff>>, load: LoadId, from: Instant, to: Instant,
                               diff: Diff)
    returns (n: nat)
    requires Faithful(journal, reports, ReportOf) && RefreshedAs(journal, reports, load, from, to, diff)
    ensures n < |journal| && journal[n].Reconcile? && journal[n] == Reconcile(load, from, to, journal[n].now)
    ensures var result := Refresh(Replay(EMPTY, journal[..n]), load, from, to, journal[n].now);
      result.Committed? && result.diff == diff
  {
    n :| 0 <= n < |journal| && ReportedAt(journal, reports, n, load, from, to, diff);
    ReportedRefreshCommitted(journal, reports, n, load, from, to, diff);
  }

  lemma {:induction false} SortedIsCastable(parse: Parse, sensor: int, records: seq<Json>, w: Window)
    requires SortAll(parse, sensor, records, w).Success?
    ensures Castable(parse, SortAll(parse, sensor, records, w).value.staged)
  {
    if records == [] {
    } else {
      SortedIsCastable(parse, sensor, records[..|records| - 1], w);
    }
  }

  lemma {:induction false} HarvestIsCastable(parse: Parse, script: ApiScript, sensors: seq<Json>, w: Window)
    requires HarvestOf(parse, script, sensors, w).Success?
    ensures Castable(parse, HarvestOf(parse, script, sensors, w).value.staged)
  {
    if sensors == [] {
    } else {
      var n := |sensors| - 1;
      HarvestIsCastable(parse, script, sensors[..n], w);
      var id := SensorId(sensors[n]).value;
      var reply := script.Reply(n);
      if reply.Success? {
        SortedIsCastable(parse, id, reply.value.records, w);
      }
    }
  }

  lemma BatchIsCastable(parse: Parse, script: ApiScript, start: Datetime, end: Datetime)
    requires Collected(parse, script, start, end).Success?
    ensures Castable(parse, Collected(parse, script, start, end).value.measurements)
  {
    var w := Window(NormaliseUtc(start).value, NormaliseUtc(end).value);
    HarvestIsCastable(parse, script, TargetSensors(script.Discovery().value.records).value, w);
  }

  /** What the first task collects for a run. */
  function BatchOf(parse: Parse, script: ApiScript, w: Window): Result<IngestBatch, IngestError> {
    Collected(parse, script, Utc(w.from), Utc(w.to))
  }

  /** The two transactions of the first task. */
  function StagingOps(parse: Parse, load: LoadId, batch: IngestBatch): seq<Op>
    requires Castable(parse, batch.measurements)
  {
    [StageLocs(load, batch.locations), Stage(load, CastAll(parse, batch.measurements))]
  }

  /** What the first task may have added to the journal: nothing, the locations, or the whole staging. */
  ghost predicate StagedPart(parse: Parse, script: ApiScript, load: LoadId, w: Window,
                             before: seq<Op>, after: seq<Op>, complete: bool)
  {
    var batch := BatchOf(parse, script, w);
    if after == before then !complete
    else
      && batch.Success? && Castable(parse, batch.value.measurements)
      && var ops := StagingOps(parse, load, batch.value);
         after == before + ops || (!complete && after == before + ops[..1])
  }

  ghost predicate AllSummaries(ops: seq<Op>, load: LoadId) {
    forall i :: 0 <= i < |ops| ==> ops[i].Summarise? && ops[i].load == load
  }

  ghost predicate PublishedPart(parse: Parse, script: ApiScript, load: LoadId, w: Window, before: seq<Op>,
                                now: Instant, summaries: seq<Op>, after: seq<Op>)
  {
    var batch := BatchOf(parse, script, w);
    && batch.Success? && Castable(parse, batch.value.measurements)
    && var staged, refresh := before + StagingOps(parse, load, batch.value), Reconcile(load, w.from, w.to, now);
       && Commits(EMPTY, staged, refresh)
       && after == staged + [refresh] + summaries
       && |summaries| <= 1 + RECORD_RETRIES
       && AllSummaries(summaries, load)
  }

  ghost predicate Publishes(parse: Parse, script: ApiScript, load: LoadId, w: Window,
                            before: seq<Op>, after: seq<Op>)
  {
    exists now: Instant, summaries: seq<Op> :: PublishedPart(parse, script, load, w, before, now, summaries, after)
  }

  /** What a whole run may have added: part of the staging, or all of it, one refresh, and its summaries. */
  ghost predicate RunPart(parse: Parse, script: ApiScript, load: LoadId, w: Window,
                          before: seq<Op>, after: seq<Op>)
  {
    StagedPart(parse, script, load, w, before, after, false) || Publishes(parse, script, load, w, before, after)
  }

  /** The staging summary reports this batch. */
  ghost predicate Sums(s: StagingSummary, load: LoadId, batch: IngestBatch) {
    && s.load == load && s.locationCount == batch.locationCount && s.sensorCount == batch.sensorCount
    && s.apiRecordCount == batch.apiRecordCount && s.stagedRecordCount == |batch.measurements|
    && s.excludedRecordCount == batch.excludedRecordCount && s.serverErrorSensorCount == batch.serverErrorSensorCount
  }

  /** It reports the batch of its run. */
  ghost predicate SummaryOf(s: StagingSummary, load: LoadId, parse: Parse, script: ApiScript, w: Window) {
    BatchOf(parse, script, w).Success? && Sums(s, load, BatchOf(parse, script, w).value)
  }

  /** The MERGE of the third task. */
  function SummaryOp(s: RefreshSummary, load: LoadId, w: Window, now: Instant): Op {
    Summarise(load, SummaryRow(load, "ingest", w.from, w.to, s.staging.apiRecordCount, s.diff,
                               s.diff.BronzeChanged(), now))
  }

  function AssetOf(s: RefreshSummary, load: LoadId, w: Window): AssetEvent {
    AssetEvent(load, w, s.staging.locationCount, s.staging.apiRecordCount, s.staging.serverErrorSensorCount, s.diff)
  }

  predicate StagesQuietly(faults: Faults) {
    faults.stageLocations == faults.stageMeasurements == 0 && !faults.diesBetweenStages && !faults.diesStaged
  }

  /** An attempt of the third task fails: its statement does, or it dies before it has emitted. */
  predicate RecordFails(faults: Faults, attempt: nat) {
    faults.record(attempt) != 0 || faults.diesRecorded(attempt)
  }

  /** A task dies after something it committed, and the run does not get past it. */
  predicate Dies(faults: Faults) {
    || faults.diesBetweenStages || faults.diesStaged || faults.diesRefreshed
    || (faults.diesRecorded(0) && faults.diesRecorded(1))
  }

  /** Nothing fails that the run does not get past: one of the third task's two attempts may. */
  predicate Quiet(faults: Faults) {
    && StagesQuietly(faults)
    && faults.refresh == 0 && !faults.diesRefreshed
    && !(RecordFails(faults, 0) && RecordFails(faults, 1))
  }

  predicate Summarises(row: SummaryRow, load: LoadId, w: Window, apiRecordCount: nat, diff: Diff) {
    && row.load == load && row.loadType == "ingest" && row.from == w.from && row.to == w.to
    && row.apiRecordCount == apiRecordCount && row.diff == diff
    && (row.bronzeChanged <==> diff.newCount > 0 || diff.changedCount > 0 || diff.absentCount > 0)
  }

  /** The load's summary row stands, with the figures of the run. */
  ghost predicate SummaryStands(rows: seq<SummaryRow>, load: LoadId, w: Window, apiRecordCount: nat, diff: Diff) {
    exists row :: row in rows && Summarises(row, load, w, apiRecordCount, diff)
  }

  /** Recording a summary whose refresh has committed, and then emitting its event, keeps everything backed. */
  lemma RecordingKeepsBacking(journal: seq<Op>, reports: seq<Option<Diff>>, rows: seq<SummaryRow>,
                              assets: seq<AssetEvent>, s: RefreshSummary, load: LoadId, w: Window, now: Instant)
    requires Backed(journal, reports, rows, assets) && OneSummaryPerLoad(rows)
    requires RefreshedAs(journal, reports, load, w.from, w.to, s.diff)
    ensures var op := SummaryOp(s, load, w, now);
      && RefreshedAs(journal + [op], reports + [None], load, w.from, w.to, s.diff)
      && Backed(journal + [op], reports + [None], Merge(rows, op.row), assets)
      && Backed(journal + [op], reports + [None], Merge(rows, op.row), assets + [AssetOf(s, load, w)])
      && SummaryStands(Merge(rows, op.row), load, w, s.staging.apiRecordCount, s.diff)
  {
    var op := SummaryOp(s, load, w, now);
    BackingGrows(journal, reports, rows, assets, op, None);
    RefreshStaysCommitted(journal, reports, op, None, load, w.from, w.to, s.diff);
    MergeKeepsBacking(journal + [op], reports + [None], rows, assets, op.row);
    assert Summarises(op.row, load, w, s.staging.apiRecordCount, s.diff);
  }

  /** The event and the summary row carry the figures of this batch, and of the refresh that met its staging. */
  ghost predicate ReportsRun(e: AssetEvent, rows: seq<SummaryRow>, parse: Parse, batch: IngestBatch, load: LoadId,
                             w: Window, before: seq<Op>, now: Instant)
  {
    && Castable(parse, batch.measurements)
    && Says(ReportOf, before + StagingOps(parse, load, batch), Reconcile(load, w.from, w.to, now), Some(e.diff))
    && SummaryStands(rows, load, w, batch.apiRecordCount, e.diff)
    && e.load == load && e.w == w
    && e.locationCount == batch.locationCount && e.apiRecordCount == batch.apiRecordCount
    && e.serverErrorSensorCount == batch.serverErrorSensorCount
  }

  /** One event more, the run's own. */
  ghost predicate EmittedOnce(assets: seq<AssetEvent>, after: seq<AssetEvent>, rows: seq<SummaryRow>, parse: Parse,
                              batch: IngestBatch, load: LoadId, w: Window, before: seq<Op>, now: Instant)
  {
    exists e :: after == assets + [e] && ReportsRun(e, rows, parse, batch, load, w, before, now)
  }

  /** The run finds its window, its batch and a staging the database guard accepts. */
  ghost predicate CanPublish(parse: Parse, script: ApiScript, load: LoadId, start: Datetime, end: Datetime,
                             journal: seq<Op>, now: Instant)
  {
    && load != "" && RefreshWindowForInterval(start, end).Some?
    && var w := RefreshWindowForInterval(start, end).value;
       var batch := BatchOf(parse, script, w);
       && batch.Success? && Castable(parse, batch.value.measurements)
       && Commits(EMPTY, journal + StagingOps(parse, load, batch.value), Reconcile(load, w.from, w.to, now))
  }

  lemma JoinJournal(before: seq<Op>, first: seq<Op>, second: seq<Op>)
    ensures before + first + second == before + (first + second)
  {
  }

  lemma AllSummariesConcat(ops: seq<Op>, more: seq<Op>, load: LoadId)
    requires AllSummaries(ops, load) && AllSummaries(more, load)
    ensures AllSummaries(ops + more, load)
  {
  }

  lemma RefreshedNow(journal: seq<Op>, reports: seq<Option<Diff>>, op: Op, diff: Diff)
    requires |journal| == |reports| && op.Reconcile?
    ensures RefreshedAs(journal + [op], reports + [Some(diff)], op.load, op.from, op.to, diff)
  {
    assert ReportedAt(journal + [op], reports + [Some(diff)], |journal|, op.load, op.from, op.to, diff);
  }

  lemma Published(parse: Parse, script: ApiScript, load: LoadId, w: Window, before: seq<Op>, staged: seq<Op>,
                  now: Instant, summaries: seq<Op>, after: seq<Op>)
    requires StagedPart(parse, script, load, w, before, staged, true)
    requires Commits(EMPTY, staged, Reconcile(load, w.from, w.to, now))
    requires after == staged + [Reconcile(load, w.from, w.to, now)] + summaries
    requires AllSummaries(summaries, load) && |summaries| <= 1 + RECORD_RETRIES
    ensures Publishes(parse, script, load, w, before, after)
  {
    assert PublishedPart(parse, script, load, w, before, now, summaries, after);
  }

  lemma WholeStagingIsPart(parse: Parse, script: ApiScript, load: LoadId, w: Window, before: seq<Op>, after: seq<Op>)
    requires StagedPart(parse, script, load, w, before, after, true)
    ensures StagedPart(parse, script, load, w, before, after, false)
  {
  }

  lemma PublishableCommits(parse: Parse, script: ApiScript, load: LoadId, start: Datetime, end: Datetime, w: Window,
                           before: seq<Op>, staged: seq<Op>, now: Instant)
    requires CanPublish(parse, script, load, start, end, before, now) && RefreshWindowForInterval(start, end) == Some(w)
    requires StagedPart(parse, script, load, w, before, staged, true)
    ensures Commits(EMPTY, staged, Reconcile(load, w.from, w.to, now))
  {
  }

  class IngestDag {
    const warehouse: BronzeSchema
    var assets: seq<AssetEvent>

    ghost predicate Valid()
      reads this, warehouse
    {
      warehouse.Valid() && Backed(warehouse.journal, warehouse.reports, warehouse.summaries, assets)
    }

    constructor (warehouse: BronzeSchema)
      requires warehouse.Valid() && warehouse.journal == []
      ensures Valid() && this.warehouse == warehouse && assets == []
    {
      this.warehouse := warehouse;
      assets := [];
    }

    /** The staging half of the first task: two commits, and a crash possible around each. */
    method StageBatch(load: LoadId, batch: IngestBatch, faults: Faults) returns (staged: bool)
      requires Valid() && Castable(warehouse.parse, batch.measurements)
      modifies warehouse
      ensures Valid()
      ensures var ops := StagingOps(warehouse.parse, load, batch);
        || warehouse.journal == old(warehouse.journal)
        || warehouse.journal == old(warehouse.journal) + ops[..1]
        || warehouse.journal == old(warehouse.journal) + ops
      ensures staged ==>
        load != "" && warehouse.journal == old(warehouse.journal) + StagingOps(warehouse.parse, load, batch)
      ensures !staged ==>
        load == "" || !StagesQuietly(faults)
      ensures load != "" && faults.stageLocations == 0 && faults.diesBetweenStages ==>
        warehouse.journal == old(warehouse.journal) + StagingOps(warehouse.parse, load, batch)[..1]
      ensures staged ==> !faults.diesBetweenStages && !faults.diesStaged
    {
      ghost var before, reports, ops := warehouse.journal, warehouse.reports, StagingOps(warehouse.parse, load, batch);
      BackingGrows(before, reports, warehouse.summaries, assets, ops[0], None);
      BackingGrows(before + [ops[0]], reports + [None], warehouse.summaries, assets, ops[1], None);
      var error := warehouse.StageLocations(load, batch.locations, faults.stageLocations);
      if error.Some? || faults.diesBetweenStages {
        return false;
      }
      error := warehouse.StageMeasurements(load, batch.measurements, faults.stageMeasurements);
      assert error.None? ==> warehouse.journal == before + ops;
      staged := error.None? && !faults.diesStaged;
    }

    /** First task: collect a batch, stage its locations, stage its measurements. Not retried. */
    method FetchApiAndStage(load: LoadId, start: Datetime, end: Datetime, api: OpenAQClient, faults: Faults)
      returns (summary: Option<StagingSummary>, ghost script: ApiScript)
      requires Valid() && api.Valid()
      modifies warehouse, api, api.limiter, api.clock
      ensures Valid() && api.Valid()
      ensures RefreshWindowForInterval(start, end).None? ==>
        summary.None? && warehouse.journal == old(warehouse.journal) && api.attempts == old(api.attempts)
      ensures RefreshWindowForInterval(start, end).Some? ==>
        var w := RefreshWindowForInterval(start, end).value;
        && CollectedBy(api.server, api.Config(), warehouse.parse, script, w, old(api.attempts), api.attempts)
        && StagedPart(warehouse.parse, script, load, w, old(warehouse.journal), warehouse.journal, summary.Some?)
        && (summary.Some? ==> load != "" && SummaryOf(summary.value, load, warehouse.parse, script, w))
        && (summary.Some? ==> !faults.diesBetweenStages && !faults.diesStaged)
        && (summary.None? ==>
              BatchOf(warehouse.parse, script, w).Failure? || load == "" || !StagesQuietly(faults))
    {
      summary := None;
      var window := RefreshWindowForInterval(start, end);
      if window.None? {
        script := NO_CALLS;
        return;
      }
      var w := window.value;
      var collected;
      collected, script := CollectIngestBatch(warehouse.parse, api, Utc(w.from), Utc(w.to));
      if collected.Failure? {
        return;
      }
      var batch := collected.value;
      BatchIsCastable(warehouse.parse, script, Utc(w.from), Utc(w.to));
      var staged := StageBatch(load, batch, faults);
      if staged {
        summary := Some(StagingSummary(load, batch.locationCount, batch.sensorCount, batch.apiRecordCount,
                                       |batch.measurements|, batch.excludedRecordCount,
                                       batch.serverErrorSensorCount));
      }
    }

    /** The refresh a summary reports has committed. */
    ghost predicate Recordable(summary: RefreshSummary, load: LoadId, w: Window)
      reads this, warehouse
    {
      RefreshedAs(warehouse.journal, warehouse.reports, load, w.from, w.to, summary.diff)
    }

    /** Second task: reconcile the window through the procedure. Not retried, so one staging meets one refresh. */
    method RefreshBronze(staging: StagingSummary, load: LoadId, start: Datetime, end: Datetime, now: Instant,
                         faults: Faults)
      returns (summary: Option<RefreshSummary>)
      requires Valid()
      modifies warehouse
      ensures Valid()
      ensures var w := RefreshWindowForInterval(start, end);
        || warehouse.journal == old(warehouse.journal)
        || (w.Some? && Commits(EMPTY, old(warehouse.journal), Reconcile(load, w.value.from, w.value.to, now))
            && warehouse.journal == old(warehouse.journal) + [Reconcile(load, w.value.from, w.value.to, now)])
      ensures summary.Some? ==>
        && RefreshWindowForInterval(start, end).Some?
        && (var w := RefreshWindowForInterval(start, end).value;
            && warehouse.journal == old(warehouse.journal) + [Reconcile(load, w.from, w.to, now)]
            && Says(ReportOf, old(warehouse.journal), Reconcile(load, w.from, w.to, now), Some(summary.value.diff))
            && Recordable(summary.value, load, w))
        && summary.value.staging == staging && staging.load == load
        && (var w := RefreshWindowForInterval(start, end).value;
            Commits(EMPTY, old(warehouse.journal), Reconcile(load, w.from, w.to, now)))
      ensures summary.None? && faults.refresh == 0 && !faults.diesRefreshed && load != "" && staging.load == load ==>
        var w := RefreshWindowForInterval(start, end);
        w.None? || !Commits(EMPTY, old(warehouse.journal), Reconcile(load, w.value.from, w.value.to, now))
      ensures faults.diesRefreshed ==> summary.None?
    {
      var window := RefreshWindowForInterval(start, end);
      if window.None? || staging.load != load {
        return None;
      }
      var w := window.value;
      ghost var before, reports, op := warehouse.journal, warehouse.reports, Reconcile(load, w.from, w.to, now);
      ghost var rows := warehouse.summaries;
      var result := warehouse.RefreshWindow(load, w.from, w.to, now, faults.refresh);
      if result.Failure? {
        return None;
      }
      BackingGrows(before, reports, rows, assets, op, Some(result.value));
      RefreshedNow(before, reports, op, result.value);
      SaidLast(before, op, reports, Some(result.value), ReportOf);
      if faults.diesRefreshed {
        return None;
      }
      summary := Some(RefreshSummary(staging, result.value));
    }

    /** One attempt of the third task: upsert the summary, then emit the Asset; `recorded` is what it committed. */
    method RecordSummaryAndEmitAsset(summary: RefreshSummary, load: LoadId, start: Datetime, end: Datetime,
                                     now: Instant, fault: nat, dies: bool, ghost w: Window)
      returns (done: bool, ghost recorded: seq<Op>)
      requires Valid() && RefreshWindowForInterval(start, end) == Some(w)
      requires Recordable(summary, load, w)
      modifies warehouse, this`assets
      ensures Valid() && Recordable(summary, load, w)
      ensures warehouse.journal == old(warehouse.journal) + recorded
      ensures recorded != [] ==> recorded == [SummaryOp(summary, load, w, now)]
      ensures AllSummaries(recorded, load) && |recorded| <= 1 && (done ==> recorded != [] && load != "")
      ensures done ==> SummaryStands(warehouse.summaries, load, w, summary.staging.apiRecordCount, summary.diff)
      ensures assets == if done then old(assets) + [AssetOf(summary, load, w)]
                        else old(assets)
      ensures !done ==> fault != 0 || dies || load == "" || summary.staging.load != load
      ensures dies ==> !done
    {
      recorded := [];
      var window := RefreshWindowForInterval(start, end).value;
      if summary.staging.load != load {
        return false, recorded;
      }
      ghost var op := SummaryOp(summary, load, w, now);
      ReplayKeepsOneSummary(EMPTY, warehouse.journal);
      RecordingKeepsBacking(warehouse.journal, warehouse.reports, warehouse.summaries, assets, summary, load, w, now);
      var error := warehouse.RecordLoadSummary(load, "ingest", window.from, window.to, summary.staging.apiRecordCount,
                                               summary.diff, now, fault);
      if error.Some? {
        return false, recorded;
      }
      recorded := [op];
      if dies {
        return false, recorded;
      }
      assets := assets + [AssetOf(summary, load, window)];
      done := true;
    }

    /** One attempt among several: it adds what it commits to the `summaries` that the ones before it committed. */
    method TryToRecord(summary: RefreshSummary, load: LoadId, start: Datetime, end: Datetime, now: Instant, fault: nat,
                       dies: bool, ghost w: Window, ghost before: seq<Op>, ghost summaries: seq<Op>)
      returns (done: bool, ghost more: seq<Op>)
      requires Valid() && RefreshWindowForInterval(start, end) == Some(w)
      requires Recordable(summary, load, w)
      requires warehouse.journal == before + summaries && AllSummaries(summaries, load)
      modifies warehouse, this`assets
      ensures Valid() && Recordable(summary, load, w)
      ensures warehouse.journal == before + more && AllSummaries(more, load)
      ensures |more| <= |summaries| + 1 && (done ==> more != [] && load != "")
      ensures done ==> SummaryStands(warehouse.summaries, load, w, summary.staging.apiRecordCount, summary.diff)
      ensures assets == if done then old(assets) + [AssetOf(summary, load, w)] else old(assets)
      ensures !done ==> fault != 0 || dies || load == "" || summary.staging.load != load
      ensures dies ==> !done
    {
      ghost var recorded;
      done, recorded := RecordSummaryAndEmitAsset(summary, load, start, end, now, fault, dies, w);
      AllSummariesConcat(summaries, recorded, load);
      JoinJournal(before, summaries, recorded);
      more := summaries + recorded;
    }

    /** The third task with its retry; `summaries` are the upserts it committed. */
    method RecordWithRetry(summary: RefreshSummary, load: LoadId, start: Datetime, end: Datetime, now: nat -> Instant,
                           faults: Faults, ghost w: Window)
      returns (emitted: bool, ghost summaries: seq<Op>)
      requires Valid() && RefreshWindowForInterval(start, end) == Some(w)
      requires Recordable(summary, load, w)
      modifies warehouse, this`assets
      ensures Valid()
      ensures warehouse.journal == old(warehouse.journal) + summaries
      ensures AllSummaries(summaries, load) && |summaries| <= 2
      ensures emitted ==> summaries != [] && load != ""
      ensures emitted ==> SummaryStands(warehouse.summaries, load, w, summary.staging.apiRecordCount, summary.diff)
      ensures assets == if emitted then old(assets) + [AssetOf(summary, load, w)]
                        else old(assets)
      ensures !emitted ==>
        load == "" || summary.staging.load != load || (RecordFails(faults, 0) && RecordFails(faults, 1))
      ensures emitted ==> !(faults.diesRecorded(0) && faults.diesRecorded(1))
    {
      emitted, summaries := false, [];
      var attempt := 0;
      while !emitted && attempt <= RECORD_RETRIES
        invariant 0 <= attempt <= RECORD_RETRIES + 1
        invariant Valid() && Recordable(summary, load, w)
        invariant warehouse.journal == old(warehouse.journal) + summaries
        invariant AllSummaries(summaries, load) && |summaries| <= attempt
        invariant emitted ==> summaries != [] && load != ""
        invariant emitted ==> !(faults.diesRecorded(0) && faults.diesRecorded(1))
        invariant emitted ==>
          SummaryStands(warehouse.summaries, load, w, summary.staging.apiRecordCount, summary.diff)
        invariant assets == if emitted then old(assets) + [AssetOf(summary, load, w)] else old(assets)
        invariant !emitted ==>
          || load == "" || summary.staging.load != load
          || ((attempt >= 1 ==> RecordFails(faults, 0)) && (attempt >= 2 ==> RecordFails(faults, 1)))
      {
        emitted, summaries := TryToRecord(summary, load, start, end, now(attempt), faults.record(attempt),
                                          faults.diesRecorded(attempt), w, old(warehouse.journal), summaries);
        attempt := attempt + 1;
      }
    }

    /** The second and third tasks of a run whose staging is complete. */
    method RefreshAndRecord(staging: StagingSummary, load: LoadId, start: Datetime, end: Datetime,
                            refreshAt: Instant, recordAt: nat -> Instant, faults: Faults,
                            ghost script: ApiScript, ghost batch: IngestBatch, ghost w: Window,
                            ghost before: seq<Op>)
      returns (emitted: bool)
      requires Valid() && RefreshWindowForInterval(start, end) == Some(w) && load != "" && staging.load == load
      requires StagedPart(warehouse.parse, script, load, w, before, warehouse.journal, true)
      requires BatchOf(warehouse.parse, script, w) == Success(batch) && Sums(staging, load, batch)
      modifies warehouse, this`assets
      ensures Valid()
      ensures RunPart(warehouse.parse, script, load, w, before, warehouse.journal)
      ensures !emitted ==> assets == old(assets)
      ensures emitted ==> !faults.diesRefreshed && !(faults.diesRecorded(0) && faults.diesRecorded(1))
      ensures emitted ==>
        EmittedOnce(old(assets), assets, warehouse.summaries, warehouse.parse, batch, load, w, before, refreshAt)
      ensures emitted ==> Publishes(warehouse.parse, script, load, w, before, warehouse.journal)
      ensures !emitted ==>
        !Quiet(faults) || !CanPublish(warehouse.parse, script, load, start, end, before, refreshAt)
    {
      emitted := false;
      ghost var staged := warehouse.journal;
      WholeStagingIsPart(warehouse.parse, script, load, w, before, staged);
      if CanPublish(warehouse.parse, script, load, start, end, before, refreshAt) {
        PublishableCommits(warehouse.parse, script, load, start, end, w, before, staged, refreshAt);
      }
      var refreshed := RefreshBronze(staging, load, start, end, refreshAt, faults);
      ghost var journal := warehouse.journal;
      if refreshed.None? {
        if journal != staged {
          Published(warehouse.parse, script, load, w, before, staged, refreshAt, [], journal);
        }
        return;
      }
      ghost var summaries;
      emitted, summaries := RecordWithRetry(refreshed.value, load, start, end, recordAt, faults, w);
      Published(warehouse.parse, script, load, w, before, staged, refreshAt, summaries, warehouse.journal);
    }

    /**
     * One run of the chain, each task started only when the one before returned. `script` is what its
     * API calls came to; `refreshAt` and `recordAt` are the database clock. Wherever it dies, what it
     * committed is part of one staging, at most one refresh, and that refresh's summaries; only a run
     * that recorded its summary emits.
     */
    method Run(load: LoadId, start: Datetime, end: Datetime, api: OpenAQClient,
               refreshAt: Instant, recordAt: nat -> Instant, faults: Faults)
      returns (emitted: bool, ghost script: ApiScript)
      requires Valid() && api.Valid()
      modifies warehouse, this`assets, api, api.limiter, api.clock
      ensures Valid() && api.Valid()
      ensures RefreshWindowForInterval(start, end).None? ==>
        warehouse.journal == old(warehouse.journal) && api.attempts == old(api.attempts)
      ensures RefreshWindowForInterval(start, end).Some? ==>
        && CollectedBy(api.server, api.Config(), warehouse.parse, script, RefreshWindowForInterval(start, end).value,
                       old(api.attempts), api.attempts)
        && RunPart(warehouse.parse, script, load, RefreshWindowForInterval(start, end).value,
                   old(warehouse.journal), warehouse.journal)
      ensures !emitted ==> assets == old(assets)
      ensures emitted ==> !Dies(faults)
      ensures emitted ==>
        && load != "" && RefreshWindowForInterval(start, end).Some?
        && Publishes(warehouse.parse, script, load, RefreshWindowForInterval(start, end).value,
                     old(warehouse.journal), warehouse.journal)
        && var w := RefreshWindowForInterval(start, end).value;
           EmittedOnce(old(assets), assets, warehouse.summaries, warehouse.parse,
                       BatchOf(warehouse.parse, script, w).value, load, w, old(warehouse.journal), refreshAt)
      ensures !emitted ==>
        !Quiet(faults) || !CanPublish(warehouse.parse, script, load, start, end, old(warehouse.journal), refreshAt)
    {
      emitted := false;
      var staging;
      staging, script := FetchApiAndStage(load, start, end, api, faults);
      if staging.None? {
        return;
      }
      ghost var w := RefreshWindowForInterval(start, end).value;
      emitted := RefreshAndRecord(staging.value, load, start, end, refreshAt, recordAt, faults, script,
                                  BatchOf(warehouse.parse, script, w).value, w, old(warehouse.journal));
    }
  }
}
