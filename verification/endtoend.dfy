// From API records to bronze rows: what a collected batch holds, and what a run publishes.
module EndToEnd {
  import opened ApiRecords
  import opened Bronze
  import opened Client
  import opened Dag
  import opened History
  import opened Ingest
  import opened Join
  import opened Json
  import opened Pagination
  import opened StagedMeasurements
  import opened Tables
  import opened Times
  import opened Warehouse
  import opened Wrappers

  // ---- what a batch holds

  lemma {:induction false} SortedRecords(parse: Parse, sensor: int, records: seq<Json>, w: Window, m: StagedMeasurement)
    requires SortAll(parse, sensor, records, w).Success?
    ensures var sorted := SortAll(parse, sensor, records, w).value;
      && |records| == |sorted.staged| + sorted.excluded
      && (m in sorted.staged <==> m.sensor == sensor && m.raw in records && Stageable(parse, w, m))
  {
    if records == [] {
    } else {
      var front, last := records[..|records| - 1], records[|records| - 1];
      assert records == front + [last];
      SortedRecords(parse, sensor, front, w, m);
      SortIs(parse, sensor, last, w, m);
    }
  }

  ghost predicate StartsInside(parse: Parse, record: Json, w: Window) {
    exists start, parameter ::
      Identifies(record, start, parameter) && parse(start).Some? && w.from <= parse(start).value < w.to
  }

  ghost function Inside(parse: Parse, w: Window): Json -> bool {
    (record: Json) => StartsInside(parse, record, w)
  }

  function Raws(ms: seq<StagedMeasurement>): seq<Json> {
    seq(|ms|, i requires 0 <= i < |ms| => ms[i].raw)
  }

  /** Sorting keeps the in-window records, each as often as the answer lists it, and in that order. */
  lemma {:induction false} SortingKeepsOrder(parse: Parse, sensor: int, records: seq<Json>, w: Window)
    requires SortAll(parse, sensor, records, w).Success?
    ensures Raws(SortAll(parse, sensor, records, w).value.staged) == Filter(Inside(parse, w), records)
  {
    if records == [] {
    } else {
      var last := records[|records| - 1];
      SortingKeepsOrder(parse, sensor, records[..|records| - 1], w);
      var sorting := Sort(parse, sensor, last, w);
      NotStagedIs(parse, sensor, last, w);
      if sorting.Staged? {
        SortIs(parse, sensor, last, w, sorting.m);
        assert Identifies(last, sorting.m.periodFrom, sorting.m.parameter);
      }
    }
  }

  /** The i-th target sensor, the row's own, answered with its record. */
  predicate SensorStages(parse: Parse, script: ApiScript, sensors: seq<Json>, w: Window, i: nat, m: StagedMeasurement) {
    && i < |sensors| && Field(sensors[i], "id", Int(m.sensor))
    && script.Reply(i).Success? && m.raw in script.Reply(i).value.records
    && Stageable(parse, w, m)
  }

  lemma StagesByOneMore(parse: Parse, script: ApiScript, sensors: seq<Json>, w: Window, m: StagedMeasurement)
    requires sensors != []
    ensures var n := |sensors| - 1;
      (exists i :: 0 <= i < |sensors| && SensorStages(parse, script, sensors, w, i, m)) <==>
        || (exists i :: 0 <= i < n && SensorStages(parse, script, sensors[..n], w, i, m))
        || SensorStages(parse, script, sensors, w, n, m)
  {
    var n := |sensors| - 1;
    var front := sensors[..n];
    if i :| 0 <= i < n && SensorStages(parse, script, front, w, i, m) {
      assert SensorStages(parse, script, sensors, w, i, m);
    }
    if i :| 0 <= i < |sensors| && SensorStages(parse, script, sensors, w, i, m) {
      assert i < n ==> SensorStages(parse, script, front, w, i, m);
    }
  }

  lemma {:induction false} HarvestedRecords(parse: Parse, script: ApiScript, sensors: seq<Json>, w: Window,
                                            m: StagedMeasurement)
    requires HarvestOf(parse, script, sensors, w).Success?
    ensures var h := HarvestOf(parse, script, sensors, w).value;
      && h.apiRecords == |h.staged| + h.excluded
      && (m in h.staged <==> exists i :: 0 <= i < |sensors| && SensorStages(parse, script, sensors, w, i, m))
  {
    if sensors == [] {
    } else {
      var n := |sensors| - 1;
      HarvestedRecords(parse, script, sensors[..n], w, m);
      StagesByOneMore(parse, script, sensors, w, m);
      var id := SensorId(sensors[n]).value;
      var reply := script.Reply(n);
      SensorIdIs(sensors[n], m.sensor);
      if reply.Success? {
        SortedRecords(parse, id, reply.value.records, w, m);
      }
    }
  }

  lemma {:induction false} SortingSucceedsIff(parse: Parse, sensor: int, records: seq<Json>, w: Window)
    ensures SortAll(parse, sensor, records, w).Success? <==> forall r :: r in records ==> Readable(parse, r)
  {
    if records == [] {
    } else {
      var front, last := records[..|records| - 1], records[|records| - 1];
      SortingSucceedsIff(parse, sensor, front, w);
      NotStagedIs(parse, sensor, last, w);
      assert records == front + [last];
      assert last in records;
    }
  }

  /** The n-th sensor has an integer id, and answered readably or with a persistent server error. */
  ghost predicate Collectable(parse: Parse, script: ApiScript, sensor: Json, n: nat) {
    && (exists id :: Field(sensor, "id", Int(id)))
    && match script.Reply(n)
       case Failure(e) => e.ServerError?
       case Success(fetched) => forall r :: r in fetched.records ==> Readable(parse, r)
  }

  lemma TakingSucceedsIff(parse: Parse, script: ApiScript, before: Harvest, n: nat, sensor: Json, w: Window)
    ensures TakeSensor(parse, script, before, n, sensor, w).Success? <==> Collectable(parse, script, sensor, n)
  {
    if SensorId(sensor).Some? {
      var id := SensorId(sensor).value;
      if script.Reply(n).Success? {
        SortingSucceedsIff(parse, id, script.Reply(n).value.records, w);
      }
    }
  }

  ghost predicate AllCollectable(parse: Parse, script: ApiScript, sensors: seq<Json>) {
    forall i :: 0 <= i < |sensors| ==> Collectable(parse, script, sensors[i], i)
  }

  /** One sensor that is not collectable ends a collection. */
  lemma {:induction false} HarvestSucceedsIff(parse: Parse, script: ApiScript, sensors: seq<Json>, w: Window)
    ensures HarvestOf(parse, script, sensors, w).Success? <==> AllCollectable(parse, script, sensors)
  {
    if sensors == [] {
    } else {
      var n := |sensors| - 1;
      var before := HarvestOf(parse, script, sensors[..n], w);
      HarvestSucceedsIff(parse, script, sensors[..n], w);
      if before.Success? {
        TakingSucceedsIff(parse, script, before.value, n, sensors[n], w);
      }
    }
  }

  predicate HitServerError(script: ApiScript, sensor: Json, n: nat) {
    SensorId(sensor).Some? &&
    var reply := script.Reply(n);
    reply.Failure? && reply.error.ServerError?
  }

  function ServerErrorSensors(script: ApiScript, sensors: seq<Json>): set<int> {
    set i | 0 <= i < |sensors| && HitServerError(script, sensors[i], i)
  }

  lemma OneMoreServerError(script: ApiScript, sensors: seq<Json>)
    requires sensors != []
    ensures var n := |sensors| - 1;
      var before := |ServerErrorSensors(script, sensors[..n])|;
      |ServerErrorSensors(script, sensors)| == if HitServerError(script, sensors[n], n) then before + 1 else before
  {
    var n := |sensors| - 1;
    var before, after := ServerErrorSensors(script, sensors[..n]), ServerErrorSensors(script, sensors);
    var hit := HitServerError(script, sensors[n], n);
    forall i ensures i in after <==> i in before || (hit && i == n) {
      assert 0 <= i < n ==> sensors[..n][i] == sensors[i];
    }
    if hit {
      assert after == before + {n};
    } else {
      assert after == before;
    }
  }

  /** Persistent server errors are counted sensor by sensor. */
  lemma {:induction false} HarvestCountsServerErrors(parse: Parse, script: ApiScript, sensors: seq<Json>, w: Window)
    requires HarvestOf(parse, script, sensors, w).Success?
    ensures HarvestOf(parse, script, sensors, w).value.serverErrors == |ServerErrorSensors(script, sensors)|
  {
    if sensors == [] {
    } else {
      var n := |sensors| - 1;
      HarvestCountsServerErrors(parse, script, sensors[..n], w);
      OneMoreServerError(script, sensors);
    }
  }

  /** How many records the sensors' fetches returned; one that failed returned none. */
  function RecordsReturned(script: ApiScript, sensors: seq<Json>): nat {
    if sensors == [] then 0
    else
      var n := |sensors| - 1;
      RecordsReturned(script, sensors[..n]) +
      if script.Reply(n).Success? then |script.Reply(n).value.records| else 0
  }

  lemma {:induction false} HarvestCountsRecords(parse: Parse, script: ApiScript, sensors: seq<Json>, w: Window)
    requires HarvestOf(parse, script, sensors, w).Success?
    ensures HarvestOf(parse, script, sensors, w).value.apiRecords == RecordsReturned(script, sensors)
  {
    if sensors == [] {
    } else {
      HarvestCountsRecords(parse, script, sensors[..|sensors| - 1], w);
    }
  }

  /** An accepted batch accounts for every API record, and holds exactly the in-window ones. */
  lemma BatchIsApiContent(parse: Parse, script: ApiScript, w: Window, m: StagedMeasurement)
    requires BatchOf(parse, script, w).Success?
    ensures var batch := BatchOf(parse, script, w).value;
      && batch.apiRecordCount == RecordsReturned(script, SensorsOf(script))
      && batch.excludedRecordCount == batch.apiRecordCount - |batch.measurements|
      && batch.locations == script.Discovery().value.records && batch.locationCount == |batch.locations|
      && batch.serverErrorSensorCount == |ServerErrorSensors(script, SensorsOf(script))|
      && batch.sensorCount == |SensorsOf(script)|
      && UniqueIdentities(batch.measurements)
      && (m in batch.measurements <==>
          exists i :: 0 <= i < |SensorsOf(script)| && SensorStages(parse, script, SensorsOf(script), w, i, m))
  {
    HarvestedRecords(parse, script, SensorsOf(script), w, m);
    HarvestCountsRecords(parse, script, SensorsOf(script), w);
    HarvestCountsServerErrors(parse, script, SensorsOf(script), w);
  }

  /** What one sensor contributes: its in-window records, or nothing if it did not answer. */
  function Added(parse: Parse, script: ApiScript, sensor: Json, w: Window, n: nat): seq<StagedMeasurement> {
    if SensorId(sensor).None? || script.Reply(n).Failure? then []
    else
      var sorted := SortAll(parse, SensorId(sensor).value, script.Reply(n).value.records, w);
      if sorted.Success? then sorted.value.staged else []
  }

  function StagedRecords(parse: Parse, script: ApiScript, sensors: seq<Json>, w: Window): seq<StagedMeasurement> {
    if sensors == [] then []
    else
      var n := |sensors| - 1;
      StagedRecords(parse, script, sensors[..n], w) + Added(parse, script, sensors[n], w, n)
  }

  lemma {:induction false} HarvestStages(parse: Parse, script: ApiScript, sensors: seq<Json>, w: Window)
    requires HarvestOf(parse, script, sensors, w).Success?
    ensures HarvestOf(parse, script, sensors, w).value.staged == StagedRecords(parse, script, sensors, w)
  {
    if sensors == [] {
    } else {
      HarvestStages(parse, script, sensors[..|sensors| - 1], w);
    }
  }

  /**
   * A collection succeeds exactly when discovery answers with readable locations, every sensor is
   * collectable, and no two in-window records share an identity.
   */
  lemma CollectionSucceedsIff(parse: Parse, script: ApiScript, w: Window)
    ensures BatchOf(parse, script, w).Success? <==>
      && w.from < w.to
      && script.Discovery().Success? && (forall l :: l in script.Discovery().value.records ==> ReadableLocation(l))
      && AllCollectable(parse, script, SensorsOf(script))
      && UniqueIdentities(StagedRecords(parse, script, SensorsOf(script), w))
  {
    if script.Discovery().Success? {
      DiscoverySucceedsIff(script.Discovery().value.records);
      HarvestSucceedsIff(parse, script, SensorsOf(script), w);
      if HarvestOf(parse, script, SensorsOf(script), w).Success? {
        HarvestStages(parse, script, SensorsOf(script), w);
      }
    }
  }

  lemma StagedIsInWindow(parse: Parse, script: ApiScript, w: Window, m: StagedMeasurement)
    requires BatchOf(parse, script, w).Success? && m in BatchOf(parse, script, w).value.measurements
    ensures parse(m.periodFrom).Some? && w.Covers(parse(m.periodFrom).value)
  {
    BatchIsApiContent(parse, script, w, m);
  }

  // ---- the client's duplicate check and the database's

  /** No two rows of one sensor and parameter write the same instant as different strings. */
  predicate NoAliases(parse: Parse, ms: seq<StagedMeasurement>) {
    forall i, j | 0 <= i < j < |ms| && ms[i].sensor == ms[j].sensor && ms[i].parameter == ms[j].parameter ::
      parse(ms[i].periodFrom) == parse(ms[j].periodFrom) ==> ms[i].periodFrom == ms[j].periodFrom
  }

  /** The database guard passes exactly the batches the client passes whose strings do not alias. */
  lemma GuardsAgreeUpToAliases(parse: Parse, ms: seq<StagedMeasurement>)
    requires Castable(parse, ms)
    ensures Unique(CastAll(parse, ms)) <==> UniqueIdentities(ms) && NoAliases(parse, ms)
  {
    var rows := CastAll(parse, ms);
    if Unique(rows) {
      forall i, j | 0 <= i < j < |ms|
        ensures ms[i].sensor != ms[j].sensor || ms[i].parameter != ms[j].parameter
             || parse(ms[i].periodFrom) != parse(ms[j].periodFrom)
      {
        assert rows[i].key != rows[j].key;
      }
    }
    if UniqueIdentities(ms) && NoAliases(parse, ms) {
      forall i, j | 0 <= i < j < |ms| ensures rows[i].key != rows[j].key {
        assert ms[i].Identity() != ms[j].Identity();
      }
    }
  }

  /** The guards do differ: two spellings of one instant pass the client and fail the database. */
  lemma AliasesReachTheDatabase(parse: Parse, zulu: string, offset: string, raw: Json)
    requires zulu != offset && parse(zulu).Some? && parse(zulu) == parse(offset)
    ensures var ms := [StagedMeasurement(11, 2, zulu, raw), StagedMeasurement(11, 2, offset, raw)];
      Castable(parse, ms) && UniqueIdentities(ms) && !Unique(CastAll(parse, ms))
  {
    var ms := [StagedMeasurement(11, 2, zulu, raw), StagedMeasurement(11, 2, offset, raw)];
    assert CastAll(parse, ms)[0].key == CastAll(parse, ms)[1].key;
  }

  // ---- what a run publishes

  lemma SplitLast<T>(xs: seq<T>, ys: seq<T>)
    requires ys != []
    ensures xs + ys == xs + ys[..|ys| - 1] + [ys[|ys| - 1]]
  {
  }

  lemma {:induction false} SummariesLeaveBronze(init: Database, ops: seq<Op>, summaries: seq<Op>, load: LoadId)
    requires AllSummaries(summaries, load)
    ensures Replay(init, ops + summaries).measurements == Replay(init, ops).measurements
    ensures Replay(init, ops + summaries).snapshots == Replay(init, ops).snapshots
  {
    if summaries == [] {
      assert ops + summaries == ops;
    } else {
      var n := |summaries| - 1;
      SummariesLeaveBronze(init, ops, summaries[..n], load);
      SplitLast(ops, summaries);
      ReplayOneMore(init, ops + summaries[..n], summaries[n]);
    }
  }

  /** What a batch stages for one instant. */
  function BatchAt(parse: Parse, batch: IngestBatch, t: Instant): set<Measurement>
    requires Castable(parse, batch.measurements)
  {
    StagedAt(CastAll(parse, batch.measurements), t)
  }

  /** The record has this parameter and denotes this instant. */
  ghost predicate Denotes(parse: Parse, record: Json, parameter: int, at: Instant) {
    exists start :: Identifies(record, start, parameter) && parse(start) == Some(at)
  }

  /** The i-th target sensor, the row's own, answered with the row's record, which is of its parameter and time. */
  ghost predicate SensorReported(parse: Parse, script: ApiScript, i: nat, x: Measurement) {
    && i < |SensorsOf(script)| && Field(SensorsOf(script)[i], "id", Int(x.key.sensor))
    && script.Reply(i).Success? && x.raw in script.Reply(i).value.records
    && Denotes(parse, x.raw, x.key.parameter, x.key.at)
  }

  /** The batch holds at an instant of the window exactly what the sensors reported for it. */
  lemma BatchAtIn(parse: Parse, script: ApiScript, w: Window, t: Instant, x: Measurement)
    requires BatchOf(parse, script, w).Success? && Castable(parse, BatchOf(parse, script, w).value.measurements)
    ensures x in BatchAt(parse, BatchOf(parse, script, w).value, t) <==>
      && x.key.at == t && w.from <= t < w.to
      && exists i :: 0 <= i < |SensorsOf(script)| && SensorReported(parse, script, i, x)
  {
    var ms := BatchOf(parse, script, w).value.measurements;
    CastAllIn(parse, ms, x);
    if x in BatchAt(parse, BatchOf(parse, script, w).value, t) {
      var m :| m in ms && CastsTo(parse, m, x);
      BatchIsApiContent(parse, script, w, m);
      var i :| 0 <= i < |SensorsOf(script)| && SensorStages(parse, script, SensorsOf(script), w, i, m);
      assert SensorReported(parse, script, i, x);
    }
    if x.key.at == t && w.from <= t < w.to {
      if i :| 0 <= i < |SensorsOf(script)| && SensorReported(parse, script, i, x) {
        var start :| Identifies(x.raw, start, x.key.parameter) && parse(start) == Some(t);
        var m := StagedMeasurement(x.key.sensor, x.key.parameter, start, x.raw);
        assert SensorStages(parse, script, SensorsOf(script), w, i, m) && CastsTo(parse, m, x);
        BatchIsApiContent(parse, script, w, m);
      }
    }
  }

  /** What the refresh of a run finds: its batch staged, and the published tables as they were. */
  lemma StagingVisible(parse: Parse, load: LoadId, batch: IngestBatch, before: seq<Op>)
    requires Castable(parse, batch.measurements)
    ensures var db := Replay(EMPTY, before + StagingOps(parse, load, batch));
      && db.measurements == Replay(EMPTY, before).measurements
      && db.snapshots == Replay(EMPTY, before).snapshots
      && StagedOf(db, load) == CastAll(parse, batch.measurements)
      && LocationsOf(db, load) == batch.locations
  {
    RestagingReplacesLeftovers(EMPTY, before, load, batch.locations, CastAll(parse, batch.measurements));
  }

  /**
   * A run that published leaves bronze holding, at each instant of its window, exactly the in-window
   * API records of the target sensors that answered, and outside the window what it held before.
   */
  lemma RunPublishesApiContent(parse: Parse, script: ApiScript, load: LoadId, w: Window, before: seq<Op>,
                               now: Instant, summaries: seq<Op>, after: seq<Op>, t: Instant)
    requires PublishedPart(parse, script, load, w, before, now, summaries, after)
    ensures ContentAt(Replay(EMPTY, after), t) ==
      if w.Covers(t) then BatchAt(parse, BatchOf(parse, script, w).value, t) else ContentAt(Replay(EMPTY, before), t)
    ensures UniqueBronze(Replay(EMPTY, after))
  {
    var batch := BatchOf(parse, script, w).value;
    var staged, refresh := before + StagingOps(parse, load, batch), Reconcile(load, w.from, w.to, now);
    var db := Replay(EMPTY, staged);
    SummariesLeaveBronze(EMPTY, staged + [refresh], summaries, load);
    assert (staged + [refresh])[..|staged|] == staged;
    ReplayCommits(EMPTY, staged, refresh);
    RefreshContent(db, load, w.from, w.to, now, t);
    StagingVisible(parse, load, batch, before);
    ReplayKeepsUnique(EMPTY, after);
  }

  /** The database clause on the window removes no staged row, and a run publishes exactly if no strings alias. */
  lemma RunCommitsIffNoAliases(parse: Parse, script: ApiScript, load: LoadId, w: Window, before: seq<Op>,
                               now: Instant)
    requires BatchOf(parse, script, w).Success? && Castable(parse, BatchOf(parse, script, w).value.measurements)
    ensures var batch := BatchOf(parse, script, w).value;
      var rows := CastAll(parse, batch.measurements);
      && Filter(Within(w.from, w.to), rows) == rows
      && (Commits(EMPTY, before + StagingOps(parse, load, batch), Reconcile(load, w.from, w.to, now)) <==>
          NoAliases(parse, batch.measurements))
  {
    var batch := BatchOf(parse, script, w).value;
    var rows := CastAll(parse, batch.measurements);
    forall k | 0 <= k < |rows| ensures w.from <= rows[k].key.at < w.to {
      StagedIsInWindow(parse, script, w, batch.measurements[k]);
    }
    FilterAll(Within(w.from, w.to), rows);
    StagingVisible(parse, load, batch, before);
    ReplayStaging(EMPTY, before + StagingOps(parse, load, batch), load);
    GuardsAgreeUpToAliases(parse, batch.measurements);
    if batch.measurements != [] {
      BatchIsApiContent(parse, script, w, batch.measurements[0]);
    }
  }

  /** The load's snapshot is the batch's locations, stamped with the window's end; the other loads' are untouched. */
  ghost predicate SnapshotsPublished(db: Database, db': Database, batch: IngestBatch, load: LoadId, w: Window,
                                     now: Instant)
  {
    forall other :: Filter(SnapshotBy(other), db'.snapshots) ==
      if other == load then SnapshotRows(batch.locations, load, w.to, now) else Filter(SnapshotBy(other), db.snapshots)
  }

  lemma RunPublishesSnapshot(parse: Parse, script: ApiScript, load: LoadId, w: Window, before: seq<Op>,
                             now: Instant, summaries: seq<Op>, after: seq<Op>)
    requires PublishedPart(parse, script, load, w, before, now, summaries, after)
    ensures SnapshotsPublished(Replay(EMPTY, before), Replay(EMPTY, after), BatchOf(parse, script, w).value, load, w,
                               now)
  {
    var batch := BatchOf(parse, script, w).value;
    var staged, refresh := before + StagingOps(parse, load, batch), Reconcile(load, w.from, w.to, now);
    SummariesLeaveBronze(EMPTY, staged + [refresh], summaries, load);
    assert (staged + [refresh])[..|staged|] == staged;
    ReplayCommits(EMPTY, staged, refresh);
    StagingVisible(parse, load, batch, before);
    forall other ensures Filter(SnapshotBy(other), Replay(EMPTY, after).snapshots) ==
      if other == load then SnapshotRows(batch.locations, load, w.to, now)
      else Filter(SnapshotBy(other), Replay(EMPTY, before).snapshots)
    {
      RefreshReplacesSnapshot(Replay(EMPTY, staged), load, w.from, w.to, now, other);
    }
  }

  lemma BatchIsUnique(parse: Parse, script: ApiScript, w: Window)
    requires BatchOf(parse, script, w).Success?
    ensures UniqueIdentities(BatchOf(parse, script, w).value.measurements)
  {
    var ms := BatchOf(parse, script, w).value.measurements;
    if ms != [] {
      BatchIsApiContent(parse, script, w, ms[0]);
    }
  }

  /**
   * As tables: the window holds exactly the rows the batch staged, each once, and the load's
   * snapshot exactly the locations discovered, stamped with the end of the window.
   */
  lemma RunPublishesTheBatch(parse: Parse, script: ApiScript, load: LoadId, w: Window, before: seq<Op>,
                             now: Instant, summaries: seq<Op>, after: seq<Op>)
    requires PublishedPart(parse, script, load, w, before, now, summaries, after)
    ensures var batch := BatchOf(parse, script, w).value;
      && multiset(BronzeWithin(Replay(EMPTY, after), w.from, w.to)) == multiset(CastAll(parse, batch.measurements))
      && SnapshotsPublished(Replay(EMPTY, before), Replay(EMPTY, after), batch, load, w, now)
  {
    var batch := BatchOf(parse, script, w).value;
    var db := Replay(EMPTY, after);
    var window, rows := BronzeWithin(db, w.from, w.to), CastAll(parse, batch.measurements);
    RunCommitsIffNoAliases(parse, script, load, w, before, now);
    GuardsAgreeUpToAliases(parse, batch.measurements);
    BatchIsUnique(parse, script, w);
    ReplayKeepsUnique(EMPTY, after);
    FilterKeepsUnique(RowWithin(w.from, w.to), db.measurements);
    forall x: Measurement ensures x in window <==> x in rows {
      RunPublishesApiContent(parse, script, load, w, before, now, summaries, after, x.key.at);
      BronzeWithinIn(db, w.from, w.to, x);
      FilterIn(Within(w.from, w.to), rows);
    }
    assert Content(window) == Content(rows);
    SameContentSameTable(window, rows);
    RunPublishesSnapshot(parse, script, load, w, before, now, summaries, after);
  }

  lemma RefreshCountsBatch(parse: Parse, load: LoadId, batch: IngestBatch, w: Window, before: seq<Op>, now: Instant)
    requires Castable(parse, batch.measurements)
    requires Filter(Within(w.from, w.to), CastAll(parse, batch.measurements)) == CastAll(parse, batch.measurements)
    requires Commits(EMPTY, before + StagingOps(parse, load, batch), Reconcile(load, w.from, w.to, now))
    ensures var result := Refresh(Replay(EMPTY, before + StagingOps(parse, load, batch)), load, w.from, w.to, now);
      var staged := Content(CastAll(parse, batch.measurements));
      var bronze := BronzeRowsIn(Replay(EMPTY, before), w.from, w.to);
      && result.Committed?
      && result.diff.newCount == |KeysIn(staged) - KeysIn(bronze)|
      && result.diff.changedCount == |ChangedIn(staged, bronze)|
      && result.diff.absentCount == |KeysIn(bronze) - KeysIn(staged)|
  {
    var ops := before + StagingOps(parse, load, batch);
    var db := Replay(EMPTY, ops);
    StagingVisible(parse, load, batch, before);
    ReplayCommits(EMPTY, ops, Reconcile(load, w.from, w.to, now));
    ReplayKeepsUnique(EMPTY, ops);
    RefreshCountsAreExact(db, load, w.from, w.to, now);
    WindowRows(db, load, w.from, w.to);
    assert BronzeRowsIn(db, w.from, w.to) == BronzeRowsIn(Replay(EMPTY, before), w.from, w.to);
  }

  /**
   * What a run reports, in its event and its summary row, is how its batch differs from what bronze held in
   * the window before it: identities only collected, held with another payload, and only held.
   */
  lemma RunReportsTheChanges(parse: Parse, script: ApiScript, load: LoadId, w: Window, before: seq<Op>, now: Instant,
                             e: AssetEvent, rows: seq<SummaryRow>)
    requires BatchOf(parse, script, w).Success?
    requires ReportsRun(e, rows, parse, BatchOf(parse, script, w).value, load, w, before, now)
    ensures var staged := Content(CastAll(parse, BatchOf(parse, script, w).value.measurements));
      var bronze := BronzeRowsIn(Replay(EMPTY, before), w.from, w.to);
      && e.diff.newCount == |KeysIn(staged) - KeysIn(bronze)|
      && e.diff.changedCount == |ChangedIn(staged, bronze)|
      && e.diff.absentCount == |KeysIn(bronze) - KeysIn(staged)|
  {
    var batch := BatchOf(parse, script, w).value;
    ReplayCommits(EMPTY, before + StagingOps(parse, load, batch), Reconcile(load, w.from, w.to, now));
    RunCommitsIffNoAliases(parse, script, load, w, before, now);
    RefreshCountsBatch(parse, load, batch, w, before, now);
  }

  /** A run that dies before its refresh commits has published nothing. */
  lemma CrashedRunPublishesNothing(parse: Parse, script: ApiScript, load: LoadId, w: Window,
                                   before: seq<Op>, after: seq<Op>)
    requires StagedPart(parse, script, load, w, before, after, false)
    ensures Replay(EMPTY, after).measurements == Replay(EMPTY, before).measurements
    ensures Replay(EMPTY, after).snapshots == Replay(EMPTY, before).snapshots
    ensures Replay(EMPTY, after).summaries == Replay(EMPTY, before).summaries
  {
    if after != before {
      var ops := StagingOps(parse, load, BatchOf(parse, script, w).value);
      assert (before + ops)[..|before| + 1] == before + ops[..1];
      assert (before + ops[..1])[..|before|] == before;
    }
  }

  /**
   * A run is all or nothing, wherever it dies: either bronze and the snapshots are as they were, or the
   * whole window holds the batch and the load's snapshot its locations, and everything else is as it was.
   */
  lemma RunIsAllOrNothing(parse: Parse, script: ApiScript, load: LoadId, w: Window, before: seq<Op>, after: seq<Op>)
    requires RunPart(parse, script, load, w, before, after)
    ensures var db, db' := Replay(EMPTY, before), Replay(EMPTY, after);
      || (db'.measurements == db.measurements && db'.snapshots == db.snapshots)
      || var batch := BatchOf(parse, script, w);
         && batch.Success? && Castable(parse, batch.value.measurements)
         && (forall t :: ContentAt(db', t) == if w.Covers(t) then BatchAt(parse, batch.value, t) else ContentAt(db, t))
         && exists now :: SnapshotsPublished(db, db', batch.value, load, w, now)
  {
    if Publishes(parse, script, load, w, before, after) {
      var now, summaries :| PublishedPart(parse, script, load, w, before, now, summaries, after);
      forall t ensures ContentAt(Replay(EMPTY, after), t) ==
        if w.Covers(t) then BatchAt(parse, BatchOf(parse, script, w).value, t) else ContentAt(Replay(EMPTY, before), t)
      {
        RunPublishesApiContent(parse, script, load, w, before, now, summaries, after, t);
      }
      RunPublishesSnapshot(parse, script, load, w, before, now, summaries, after);
    } else {
      CrashedRunPublishesNothing(parse, script, load, w, before, after);
    }
  }

  // ---- duplicates across pages

  /** The client's page key of a record is its staged identity without the sensor. */
  lemma KeyIsIdentity(record: Json, start: string, parameter: int)
    requires Identifies(record, start, parameter)
    ensures MeasurementIdentity(record) == Tracked([Str(start), Int(parameter)])
  {
    MeasurementIdentityIs(record, [Str(start), Int(parameter)]);
  }

  ghost predicate InOrder<T(!new)>(xs: seq<T>, x: T, y: T) {
    exists a, b :: 0 <= a < b < |xs| && xs[a] == x && xs[b] == y
  }

  lemma {:induction false} FlattenIn(pages: seq<Page>, p: nat, r: Json)
    requires p < |pages| && r in pages[p]
    ensures r in Flatten(pages)
  {
    if p == |pages| - 1 {
    } else {
      FlattenIn(pages[..|pages| - 1], p, r);
    }
  }

  lemma {:induction false} FlattenInOrder(pages: seq<Page>, p: nat, q: nat, r: Json, s: Json)
    requires p < q < |pages| && r in pages[p] && s in pages[q]
    ensures InOrder(Flatten(pages), r, s)
  {
    var n := |pages| - 1;
    var front, all := Flatten(pages[..n]), Flatten(pages);
    if q < n {
      FlattenInOrder(pages[..n], p, q, r, s);
      var a, b :| 0 <= a < b < |front| && front[a] == r && front[b] == s;
      assert all[a] == r && all[b] == s;
    } else {
      FlattenIn(pages[..n], p, r);
      var a :| 0 <= a < |front| && front[a] == r;
      var b :| 0 <= b < |pages[n]| && pages[n][b] == s;
      assert all[a] == r && all[|front| + b] == s;
    }
  }

  /** No record of an accepted answer was refused. */
  lemma {:induction false} SortedNoneRefused(parse: Parse, sensor: int, records: seq<Json>, w: Window, r: Json)
    requires SortAll(parse, sensor, records, w).Success? && r in records
    ensures !Sort(parse, sensor, r, w).Refused?
  {
    var n := |records| - 1;
    if r == records[n] {
    } else {
      SortedNoneRefused(parse, sensor, records[..n], w, r);
    }
  }

  lemma InOrderGrows<T(!new)>(xs: seq<T>, more: seq<T>, x: T, y: T)
    ensures InOrder(xs, x, y) ==> InOrder(xs + more, x, y)
    ensures x in xs && y in more ==> InOrder(xs + more, x, y)
  {
    var all := xs + more;
    if InOrder(xs, x, y) {
      var a, b :| 0 <= a < b < |xs| && xs[a] == x && xs[b] == y;
      assert all[a] == x && all[b] == y;
    }
    if x in xs && y in more {
      var a :| 0 <= a < |xs| && xs[a] == x;
      var b :| 0 <= b < |more| && more[b] == y;
      assert all[a] == x && all[|xs| + b] == y;
    }
  }

  lemma InOrderSplits<T(!new)>(xs: seq<T>, x: T, y: T)
    requires InOrder(xs, x, y)
    ensures xs != []
    ensures InOrder(xs[..|xs| - 1], x, y) || (x in xs[..|xs| - 1] && y == xs[|xs| - 1])
  {
    var front := xs[..|xs| - 1];
    var a, b :| 0 <= a < b < |xs| && xs[a] == x && xs[b] == y;
    assert front[a] == x && (b < |front| ==> front[b] == y);
  }

  lemma {:induction false} SortedInOrder(parse: Parse, sensor: int, records: seq<Json>, w: Window, r: Json, s: Json)
    requires SortAll(parse, sensor, records, w).Success? && InOrder(records, r, s)
    requires Sort(parse, sensor, r, w).Staged? && Sort(parse, sensor, s, w).Staged?
    ensures InOrder(SortAll(parse, sensor, records, w).value.staged,
                    Sort(parse, sensor, r, w).m, Sort(parse, sensor, s, w).m)
  {
    InOrderSplits(records, r, s);
    var n := |records| - 1;
    var front := records[..n];
    var before := SortAll(parse, sensor, front, w).value.staged;
    var x, y := Sort(parse, sensor, r, w).m, Sort(parse, sensor, s, w).m;
    if InOrder(front, r, s) {
      SortedInOrder(parse, sensor, front, w, r, s);
      var last := Sort(parse, sensor, records[n], w);
      InOrderGrows(before, if last.Staged? then [last.m] else [], x, y);
      assert before + [] == before;
    } else {
      var a :| 0 <= a < n && front[a] == r;
      SortIs(parse, sensor, r, w, x);
      SortedRecords(parse, sensor, front, w, x);
      InOrderGrows(before, [y], x, y);
    }
  }

  lemma UniqueParts(before: seq<StagedMeasurement>, after: seq<StagedMeasurement>)
    requires UniqueIdentities(before + after)
    ensures UniqueIdentities(before) && UniqueIdentities(after)
  {
    var all := before + after;
    forall a, b | 0 <= a < b < |before| ensures before[a].Identity() != before[b].Identity() {
      assert all[a] == before[a] && all[b] == before[b];
    }
    forall a, b | 0 <= a < b < |after| ensures after[a].Identity() != after[b].Identity() {
      assert all[|before| + a] == after[a] && all[|before| + b] == after[b];
    }
  }

  lemma {:induction false} UniqueWithinSensor(parse: Parse, script: ApiScript, sensors: seq<Json>, w: Window, i: nat)
    requires HarvestOf(parse, script, sensors, w).Success?
    requires UniqueIdentities(StagedRecords(parse, script, sensors, w))
    requires i < |sensors| && SensorId(sensors[i]).Some? && script.Reply(i).Success?
    ensures var sorted := SortAll(parse, SensorId(sensors[i]).value, script.Reply(i).value.records, w);
      sorted.Success? && UniqueIdentities(sorted.value.staged)
  {
    var n := |sensors| - 1;
    UniqueParts(StagedRecords(parse, script, sensors[..n], w), Added(parse, script, sensors[n], w, n));
    if i == n {
    } else {
      UniqueWithinSensor(parse, script, sensors[..n], w, i);
    }
  }

  predicate OutsideWindow(parse: Parse, w: Window, k: seq<Json>) {
    |k| == 2 && k[0].Str? && k[1].Int? && parse(k[0].s).Some? && !w.Covers(parse(k[0].s).value)
  }

  lemma RepeatedKeyIsOutside(parse: Parse, sensor: int, records: seq<Json>, w: Window, r: Json, s: Json, k: seq<Json>)
    requires SortAll(parse, sensor, records, w).Success?
    requires UniqueIdentities(SortAll(parse, sensor, records, w).value.staged)
    requires InOrder(records, r, s) && MeasurementIdentity(r) == MeasurementIdentity(s) == Tracked(k)
    ensures OutsideWindow(parse, w, k)
  {
    SortedNoneRefused(parse, sensor, records, w, r);
    SortedNoneRefused(parse, sensor, records, w, s);
    var m, n := FromApi(sensor, r).value, FromApi(sensor, s).value;
    FromApiIs(sensor, r, m);
    FromApiIs(sensor, s, n);
    KeyIsIdentity(r, m.periodFrom, m.parameter);
    KeyIsIdentity(s, n.periodFrom, n.parameter);
    assert m.Identity() == n.Identity();
    if w.Covers(parse(m.periodFrom).value) {
      SortedInOrder(parse, sensor, records, w, r, s);
    }
  }

  lemma KeyOnPage(page: Page, k: seq<Json>) returns (r: Json)
    requires k in KeysOn(page, MeasurementIdentity)
    ensures r in page && MeasurementIdentity(r) == Tracked(k)
  {
    r :| r in page && MeasurementIdentity(r).Tracked? && MeasurementIdentity(r).key == k;
  }

  lemma RepeatedAcrossPages(parse: Parse, sensor: int, pages: seq<Page>, w: Window, k: seq<Json>)
    requires SortAll(parse, sensor, Flatten(pages), w).Success?
    requires UniqueIdentities(SortAll(parse, sensor, Flatten(pages), w).value.staged)
    requires k in DuplicateKeys(pages, MeasurementIdentity)
    ensures OutsideWindow(parse, w, k)
  {
    DuplicateKeyIn(pages, MeasurementIdentity, k);
    var p, q :| 0 <= p < q < |pages|
      && k in KeysOn(pages[p], MeasurementIdentity) && k in KeysOn(pages[q], MeasurementIdentity);
    var r := KeyOnPage(pages[p], k);
    var s := KeyOnPage(pages[q], k);
    FlattenInOrder(pages, p, q, r, s);
    RepeatedKeyIsOutside(parse, sensor, Flatten(pages), w, r, s, k);
  }

  /**
   * Every cross-page duplicate that the client counted for a sensor of an accepted batch lies
   * outside the window.
   */
  lemma DuplicatesLieOutsideWindow(parse: Parse, server: (Query, nat) -> Exchange, settings: Settings,
                                   script: ApiScript, w: Window, first: nat, next: nat, i: nat, k: seq<Json>)
    requires FetchedBy(server, settings, script, w, first, next) && BatchOf(parse, script, w).Success?
    requires i < |SensorsOf(script)| && script.Reply(i).Success?
    ensures script.Reply(i).value.duplicateCount == |DuplicateKeys(script.walks[i + 1].Returned(), MeasurementIdentity)|
    ensures k in DuplicateKeys(script.walks[i + 1].Returned(), MeasurementIdentity) ==> OutsideWindow(parse, w, k)
  {
    var sensors, walk := SensorsOf(script), script.walks[i + 1];
    SensorFetchedBy(server, settings, script, w, first, next, i);
    var id := SensorId(sensors[i]).value;
    ResultIsReturned(server, settings, Measurements(id, w.from, w.to), MeasurementIdentity, walk);
    BatchIsUnique(parse, script, w);
    HarvestStages(parse, script, sensors, w);
    UniqueWithinSensor(parse, script, sensors, w, i);
    if k in DuplicateKeys(walk.Returned(), MeasurementIdentity) {
      RepeatedAcrossPages(parse, id, walk.Returned(), w, k);
    }
  }

  // ---- skipped sensors

  /**
   * A sensor is skipped exactly when the last attempt for the last page it was asked for met a
   * server error; all the attempts allowed for that page had then been made and had failed retryably.
   */
  lemma SkippedIffPersistentServerError(server: (Query, nat) -> Exchange, settings: Settings, script: ApiScript,
                                        w: Window, first: nat, next: nat, i: nat)
    requires FetchedBy(server, settings, script, w, first, next) && i + 1 < |script.walks|
    ensures i < |SensorsOf(script)| && SensorId(SensorsOf(script)[i]).Some?
    ensures var sensor, walk := SensorsOf(script)[i], script.walks[i + 1];
      var endpoint := Measurements(SensorId(sensor).value, w.from, w.to);
      && (HitServerError(script, sensor, i) <==> EndedOnServerError(server, endpoint, walk))
      && (HitServerError(script, sensor, i) ==> UsedUpAttempts(server, endpoint, settings.maxAttempts, walk))
  {
    SensorFetchedBy(server, settings, script, w, first, next, i);
    var endpoint := Measurements(SensorId(SensorsOf(script)[i]).value, w.from, w.to);
    ServerErrorIsPersistent(server, settings, endpoint, MeasurementIdentity, script.walks[i + 1]);
  }

  /** Every fetch of this sensor, if any, hit a persistent server error. */
  predicate NeverAnswered(script: ApiScript, id: int) {
    forall i :: 0 <= i < |SensorsOf(script)| && Field(SensorsOf(script)[i], "id", Int(id)) ==>
      HitServerError(script, SensorsOf(script)[i], i)
  }

  function OfSensor(id: int): Measurement -> bool {
    (m: Measurement) => m.key.sensor == id
  }

  lemma NeverAnsweredStagesNothing(parse: Parse, script: ApiScript, w: Window, id: int)
    requires BatchOf(parse, script, w).Success? && Castable(parse, BatchOf(parse, script, w).value.measurements)
    requires NeverAnswered(script, id)
    ensures forall x :: x in CastAll(parse, BatchOf(parse, script, w).value.measurements) ==> x.key.sensor != id
  {
    var ms := BatchOf(parse, script, w).value.measurements;
    forall x | x in CastAll(parse, ms) ensures x.key.sensor != id {
      var k :| 0 <= k < |ms| && CastAll(parse, ms)[k] == x;
      BatchIsApiContent(parse, script, w, ms[k]);
      var i :| 0 <= i < |SensorsOf(script)| && SensorStages(parse, script, SensorsOf(script), w, i, ms[k]);
    }
  }

  lemma NoneLeftOf(parse: Parse, script: ApiScript, load: LoadId, w: Window, before: seq<Op>,
                   now: Instant, summaries: seq<Op>, after: seq<Op>, id: int)
    requires PublishedPart(parse, script, load, w, before, now, summaries, after)
    requires forall x :: x in CastAll(parse, BatchOf(parse, script, w).value.measurements) ==> x.key.sensor != id
    ensures Filter(OfSensor(id), BronzeWithin(Replay(EMPTY, after), w.from, w.to)) == []
  {
    var db := Replay(EMPTY, after);
    forall x | x in BronzeWithin(db, w.from, w.to) ensures !OfSensor(id)(x) {
      BronzeWithinIn(db, w.from, w.to, x);
      RunPublishesApiContent(parse, script, load, w, before, now, summaries, after, x.key.at);
    }
    FilterNone(OfSensor(id), BronzeWithin(db, w.from, w.to));
  }

  lemma AbsentOf(parse: Parse, script: ApiScript, load: LoadId, w: Window, before: seq<Op>, now: Instant, id: int)
    requires BatchOf(parse, script, w).Success? && Castable(parse, BatchOf(parse, script, w).value.measurements)
    requires forall x :: x in CastAll(parse, BatchOf(parse, script, w).value.measurements) ==> x.key.sensor != id
    requires Commits(EMPTY, before + StagingOps(parse, load, BatchOf(parse, script, w).value),
                     Reconcile(load, w.from, w.to, now))
    ensures var staged := Replay(EMPTY, before + StagingOps(parse, load, BatchOf(parse, script, w).value));
      var result := Refresh(staged, load, w.from, w.to, now);
      && result.Committed?
      && result.diff.absentCount >= |Filter(OfSensor(id), BronzeWithin(Replay(EMPTY, before), w.from, w.to))|
  {
    var batch := BatchOf(parse, script, w).value;
    var ops := before + StagingOps(parse, load, batch);
    StagingVisible(parse, load, batch, before);
    RunCommitsIffNoAliases(parse, script, load, w, before, now);
    ReplayCommits(EMPTY, ops, Reconcile(load, w.from, w.to, now));
    var rows, bronze := CastAll(parse, batch.measurements), BronzeWithin(Replay(EMPTY, before), w.from, w.to);
    AbsentCountIs(rows, bronze);
    UnstagedIsUnmatched(OfSensor(id), rows, bronze);
  }

  /**
   * A skipped sensor loses its rows of the window: after a run that published, bronze holds none
   * there, and all that it held before are among those counted absent.
   */
  lemma SkippedSensorLosesItsRows(parse: Parse, script: ApiScript, load: LoadId, w: Window, before: seq<Op>,
                                  now: Instant, summaries: seq<Op>, after: seq<Op>, id: int)
    requires PublishedPart(parse, script, load, w, before, now, summaries, after) && NeverAnswered(script, id)
    ensures Filter(OfSensor(id), BronzeWithin(Replay(EMPTY, after), w.from, w.to)) == []
    ensures var staged := Replay(EMPTY, before + StagingOps(parse, load, BatchOf(parse, script, w).value));
      var result := Refresh(staged, load, w.from, w.to, now);
      && result.Committed?
      && result.diff.absentCount >= |Filter(OfSensor(id), BronzeWithin(Replay(EMPTY, before), w.from, w.to))|
  {
    NeverAnsweredStagesNothing(parse, script, w, id);
    NoneLeftOf(parse, script, load, w, before, now, summaries, after, id);
    AbsentOf(parse, script, load, w, before, now, id);
  }
}
