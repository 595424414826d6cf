// What runs come to against an API that serves datasets in chunks.
module Datasets {
  import opened ApiRecords
  import opened Bronze
  import opened Client
  import opened Dag
  import opened EndToEnd
  import opened History
  import opened Ingest
  import opened Join
  import opened Json
  import opened Pagination
  import opened StagedMeasurements
  import opened Tables
  import opened Times
  import opened Wrappers

  // ---- against a server that chunks datasets

  /** Every endpoint has a dataset, which the server serves in chunks whenever it answers. */
  ghost predicate ServesDatasets(server: (Query, nat) -> Exchange, datasets: Endpoint -> seq<Json>, pageSize: nat) {
    forall endpoint :: ServesChunks(server, endpoint, datasets(endpoint), pageSize)
  }

  lemma DiscoveredDataset(server: (Query, nat) -> Exchange, settings: Settings, datasets: Endpoint -> seq<Json>,
                          script: ApiScript, w: Window, first: nat, next: nat)
    requires settings.pageSize >= 1 && ServesDatasets(server, datasets, settings.pageSize)
    requires FetchedBy(server, settings, script, w, first, next) && script.Discovery().Success?
    ensures script.Discovery().value.records == datasets(Locations)
  {
    DiscoveredBy(server, settings, script, w, first, next);
    WalkFetchesDataset(server, settings, Locations, LocationIdentity, script.walks[0], datasets(Locations));
  }

  lemma SensorDataset(server: (Query, nat) -> Exchange, settings: Settings, datasets: Endpoint -> seq<Json>,
                      script: ApiScript, w: Window, first: nat, next: nat, i: nat)
    requires settings.pageSize >= 1 && ServesDatasets(server, datasets, settings.pageSize)
    requires FetchedBy(server, settings, script, w, first, next) && script.Reply(i).Success?
    ensures i < |SensorsOf(script)| && SensorId(SensorsOf(script)[i]).Some?
    ensures script.Reply(i).value.records ==
      datasets(Measurements(SensorId(SensorsOf(script)[i]).value, w.from, w.to))
  {
    SensorFetchedBy(server, settings, script, w, first, next, i);
    var endpoint := Measurements(SensorId(SensorsOf(script)[i]).value, w.from, w.to);
    WalkFetchesDataset(server, settings, endpoint, MeasurementIdentity, script.walks[i + 1], datasets(endpoint));
  }

  /** The i-th target sensor, the row's own, was not skipped, and its dataset has the row's record. */
  ghost predicate DatasetReports(parse: Parse, datasets: Endpoint -> seq<Json>, script: ApiScript, w: Window, i: nat,
                                 x: Measurement)
  {
    && i < |SensorsOf(script)| && Field(SensorsOf(script)[i], "id", Int(x.key.sensor))
    && !HitServerError(script, SensorsOf(script)[i], i)
    && x.raw in datasets(Measurements(x.key.sensor, w.from, w.to))
    && Denotes(parse, x.raw, x.key.parameter, x.key.at)
  }

  lemma ReportedByDataset(parse: Parse, server: (Query, nat) -> Exchange, settings: Settings,
                          datasets: Endpoint -> seq<Json>, script: ApiScript, w: Window, first: nat, next: nat,
                          i: nat, x: Measurement)
    requires settings.pageSize >= 1 && ServesDatasets(server, datasets, settings.pageSize)
    requires FetchedBy(server, settings, script, w, first, next) && BatchOf(parse, script, w).Success?
    ensures SensorReported(parse, script, i, x) <==> DatasetReports(parse, datasets, script, w, i, x)
  {
    CollectionSucceedsIff(parse, script, w);
    if i < |SensorsOf(script)| {
      SensorIdIs(SensorsOf(script)[i], x.key.sensor);
      assert Collectable(parse, script, SensorsOf(script)[i], i);
      if script.Reply(i).Success? {
        SensorDataset(server, settings, datasets, script, w, first, next, i);
      }
    }
  }

  /**
   * The whole pipeline: after a run against a server that chunks datasets publishes, bronze holds in
   * the window exactly the records of the datasets of the target sensors that were not skipped, each
   * at its own instant, and the load's snapshot is the dataset of locations.
   */
  lemma RunPublishesTheDatasets(parse: Parse, server: (Query, nat) -> Exchange, settings: Settings,
                                datasets: Endpoint -> seq<Json>, script: ApiScript, first: nat, next: nat,
                                load: LoadId, w: Window, before: seq<Op>, now: Instant, summaries: seq<Op>,
                                after: seq<Op>, x: Measurement)
    requires settings.pageSize >= 1 && ServesDatasets(server, datasets, settings.pageSize)
    requires FetchedBy(server, settings, script, w, first, next)
    requires PublishedPart(parse, script, load, w, before, now, summaries, after)
    ensures TargetSensors(datasets(Locations)) == Some(SensorsOf(script))
    ensures Filter(SnapshotBy(load), Replay(EMPTY, after).snapshots) ==
      SnapshotRows(datasets(Locations), load, w.to, now)
    ensures w.from <= x.key.at < w.to ==>
      (x in ContentAt(Replay(EMPTY, after), x.key.at) <==>
       exists i :: 0 <= i < |SensorsOf(script)| && DatasetReports(parse, datasets, script, w, i, x))
  {
    DiscoveredDataset(server, settings, datasets, script, w, first, next);
    RunPublishesSnapshot(parse, script, load, w, before, now, summaries, after);
    RunPublishesApiContent(parse, script, load, w, before, now, summaries, after, x.key.at);
    BatchAtIn(parse, script, w, x.key.at, x);
    forall i | 0 <= i < |SensorsOf(script)|
      ensures SensorReported(parse, script, i, x) <==> DatasetReports(parse, datasets, script, w, i, x)
    {
      ReportedByDataset(parse, server, settings, datasets, script, w, first, next, i, x);
    }
  }

  // ---- against a server whose failures pass

  /** Every failure is one that retrying gets past: persistent errors do not occur, transient ones may at any time. */
  ghost predicate Healthy(server: (Query, nat) -> Exchange, datasets: Endpoint -> seq<Json>, settings: Settings) {
    && ServesDatasets(server, datasets, settings.pageSize)
    && forall endpoint: Endpoint :: AlwaysRecovers(server, endpoint, settings.maxAttempts)
  }

  /** A server that drops every other attempt, whatever it was for, and answers the rest with chunks. */
  function Flaky(datasets: Endpoint -> seq<Json>, pageSize: nat): (Query, nat) -> Exchange {
    (query: Query, n: nat) =>
      if n % 2 == 1 || query.page == 0 then NoResponse
      else
        var page := Chunk(datasets(query.endpoint), query.page - 1, pageSize);
        Response(200, Missing, Missing, 0.0, Decoded(Obj(map["results" := Arr(page)])))
  }

  lemma FlakyRecovers(datasets: Endpoint -> seq<Json>, settings: Settings, query: Query, first: nat)
    requires settings.maxAttempts >= 2 && query.page > 0
    ensures Recovers(Flaky(datasets, settings.pageSize), query, first, settings.maxAttempts)
  {
    var server := Flaky(datasets, settings.pageSize);
    var n := if first % 2 == 0 then first else first + 1;
    assert Carries(server(query, n), Chunk(datasets(query.endpoint), query.page - 1, settings.pageSize));
    assert RecoversAt(server, query, first, n, settings.maxAttempts);
  }

  /** Two attempts for each page are enough to hide all of its failures. */
  lemma FlakyIsHealthy(datasets: Endpoint -> seq<Json>, settings: Settings)
    requires settings.maxAttempts >= 2
    ensures Healthy(Flaky(datasets, settings.pageSize), datasets, settings)
  {
    var server := Flaky(datasets, settings.pageSize);
    forall endpoint: Endpoint, page: nat, first: nat | page > 0
      ensures Recovers(server, Query(endpoint, page), first, settings.maxAttempts)
    {
      FlakyRecovers(datasets, settings, Query(endpoint, page), first);
    }
    forall endpoint: Endpoint, i: nat, n: nat
      ensures ServesChunk(server, endpoint, datasets(endpoint), settings.pageSize, i, n)
    {
    }
  }

  /** The sensor has an integer id, and its dataset can be fetched and read. */
  ghost predicate Ingestible(parse: Parse, settings: Settings, datasets: Endpoint -> seq<Json>, w: Window, sensor: Json)
  {
    && SensorId(sensor).Some?
    && var id := SensorId(sensor).value;
       var records := datasets(Measurements(id, w.from, w.to));
       && Fetchable(records, settings.pageSize, settings.maxPages, MeasurementIdentity)
       && forall r :: r in records ==> Readable(parse, r)
  }

  function InDataset(parse: Parse, datasets: Endpoint -> seq<Json>, w: Window, sensor: Json): seq<StagedMeasurement> {
    if SensorId(sensor).None? then []
    else
      var id := SensorId(sensor).value;
      var sorted := SortAll(parse, id, datasets(Measurements(id, w.from, w.to)), w);
      if sorted.Success? then sorted.value.staged else []
  }

  /** The in-window records of the sensors' datasets, in order. */
  function DatasetRecords(parse: Parse, datasets: Endpoint -> seq<Json>, w: Window, sensors: seq<Json>):
    seq<StagedMeasurement>
  {
    if sensors == [] then []
    else
      var n := |sensors| - 1;
      DatasetRecords(parse, datasets, w, sensors[..n]) + InDataset(parse, datasets, w, sensors[n])
  }

  /** What the datasets demand of an ingest, and all they do. */
  ghost predicate DatasetsIngestible(parse: Parse, settings: Settings, datasets: Endpoint -> seq<Json>, w: Window) {
    var locations := datasets(Locations);
    && Fetchable(locations, settings.pageSize, settings.maxPages, LocationIdentity)
    && TargetSensors(locations).Some?
    && (forall s :: s in TargetSensors(locations).value ==> Ingestible(parse, settings, datasets, w, s))
    && UniqueIdentities(DatasetRecords(parse, datasets, w, TargetSensors(locations).value))
  }

  lemma HealthyDiscovery(server: (Query, nat) -> Exchange, settings: Settings, datasets: Endpoint -> seq<Json>,
                         script: ApiScript, w: Window, first: nat, next: nat)
    requires settings.pageSize >= 1 && Healthy(server, datasets, settings)
    requires FetchedBy(server, settings, script, w, first, next) && script.walks != []
    ensures script.Discovery().Success? <==>
      Fetchable(datasets(Locations), settings.pageSize, settings.maxPages, LocationIdentity)
    ensures script.Discovery().Success? ==> script.Discovery().value.records == datasets(Locations)
  {
    DiscoveredBy(server, settings, script, w, first, next);
    WalkIsAnswered(server, settings, Locations, LocationIdentity, script.walks[0]);
    WalkFetchesDataset(server, settings, Locations, LocationIdentity, script.walks[0], datasets(Locations));
  }

  lemma HealthySensor(parse: Parse, server: (Query, nat) -> Exchange, settings: Settings,
                      datasets: Endpoint -> seq<Json>, script: ApiScript, w: Window, first: nat, next: nat, i: nat)
    requires settings.pageSize >= 1 && Healthy(server, datasets, settings)
    requires FetchedBy(server, settings, script, w, first, next) && i + 1 < |script.walks|
    ensures i < |SensorsOf(script)|
    ensures Collectable(parse, script, SensorsOf(script)[i], i) <==>
            Ingestible(parse, settings, datasets, w, SensorsOf(script)[i])
    ensures Collectable(parse, script, SensorsOf(script)[i], i) ==>
      Added(parse, script, SensorsOf(script)[i], w, i) == InDataset(parse, datasets, w, SensorsOf(script)[i])
  {
    SensorFetchedBy(server, settings, script, w, first, next, i);
    var endpoint := Measurements(SensorId(SensorsOf(script)[i]).value, w.from, w.to);
    var walk := script.walks[i + 1];
    WalkIsAnswered(server, settings, endpoint, MeasurementIdentity, walk);
    WalkFetchesDataset(server, settings, endpoint, MeasurementIdentity, walk, datasets(endpoint));
    LastAnswerDecides(server, settings, endpoint, MeasurementIdentity, walk);
  }

  lemma {:induction false} RecordsAgree(parse: Parse, datasets: Endpoint -> seq<Json>, script: ApiScript, w: Window,
                                        sensors: seq<Json>)
    requires forall i :: 0 <= i < |sensors| ==>
      Added(parse, script, sensors[i], w, i) == InDataset(parse, datasets, w, sensors[i])
    ensures StagedRecords(parse, script, sensors, w) == DatasetRecords(parse, datasets, w, sensors)
  {
    if sensors == [] {
    } else {
      RecordsAgree(parse, datasets, script, w, sensors[..|sensors| - 1]);
    }
  }

  lemma HealthyRecords(parse: Parse, server: (Query, nat) -> Exchange, settings: Settings,
                       datasets: Endpoint -> seq<Json>, script: ApiScript, w: Window, first: nat, next: nat)
    requires settings.pageSize >= 1 && Healthy(server, datasets, settings)
    requires FetchedBy(server, settings, script, w, first, next) && |SensorsOf(script)| < |script.walks|
    requires AllCollectable(parse, script, SensorsOf(script))
    ensures StagedRecords(parse, script, SensorsOf(script), w) == DatasetRecords(parse, datasets, w, SensorsOf(script))
  {
    var sensors := SensorsOf(script);
    forall i | 0 <= i < |sensors|
      ensures Added(parse, script, sensors[i], w, i) == InDataset(parse, datasets, w, sensors[i])
    {
      assert Collectable(parse, script, sensors[i], i);
      HealthySensor(parse, server, settings, datasets, script, w, first, next, i);
    }
    RecordsAgree(parse, datasets, script, w, sensors);
  }

  /** With ingestible datasets no sensor ends the collection early: all are fetched, and all can be collected. */
  lemma IngestibleMeansFetched(parse: Parse, server: (Query, nat) -> Exchange, settings: Settings,
                               datasets: Endpoint -> seq<Json>, script: ApiScript, w: Window, first: nat, next: nat)
    requires settings.pageSize >= 1 && Healthy(server, datasets, settings)
    requires CollectedBy(server, settings, parse, script, w, first, next)
    requires forall s :: s in SensorsOf(script) ==> Ingestible(parse, settings, datasets, w, s)
    ensures |script.walks| == |SensorsOf(script)| + 1 && AllCollectable(parse, script, SensorsOf(script))
  {
    var sensors, n := SensorsOf(script), |script.walks| - 1;
    forall i | 0 <= i < n ensures Collectable(parse, script, sensors[i], i) {
      HealthySensor(parse, server, settings, datasets, script, w, first, next, i);
    }
    HarvestSucceedsIff(parse, script, sensors[..n], w);
    assert n < |sensors| ==> Ingestible(parse, settings, datasets, w, sensors[n]);
  }

  /** A collectable sensor of a collection against a healthy server was fetched, and its dataset is ingestible. */
  lemma CollectableMeansIngestible(parse: Parse, server: (Query, nat) -> Exchange, settings: Settings,
                                   datasets: Endpoint -> seq<Json>, script: ApiScript, w: Window, first: nat,
                                   next: nat)
    requires settings.pageSize >= 1 && Healthy(server, datasets, settings)
    requires CollectedBy(server, settings, parse, script, w, first, next)
    requires AllCollectable(parse, script, SensorsOf(script))
    ensures |SensorsOf(script)| < |script.walks|
    ensures forall s :: s in SensorsOf(script) ==> Ingestible(parse, settings, datasets, w, s)
  {
    var sensors := SensorsOf(script);
    forall i | 0 <= i < |sensors|
      ensures i + 1 < |script.walks| && Ingestible(parse, settings, datasets, w, sensors[i])
    {
      assert Collectable(parse, script, sensors[i], i);
      HealthySensor(parse, server, settings, datasets, script, w, first, next, i);
    }
    assert sensors != [] ==> |sensors| - 1 + 1 < |script.walks|;
  }

  /** Sensor by sensor: what can be collected is what the datasets allow, and what it stages is theirs. */
  lemma HealthySensors(parse: Parse, server: (Query, nat) -> Exchange, settings: Settings,
                       datasets: Endpoint -> seq<Json>, script: ApiScript, w: Window, first: nat, next: nat)
    requires settings.pageSize >= 1 && Healthy(server, datasets, settings)
    requires CollectedBy(server, settings, parse, script, w, first, next)
    ensures AllCollectable(parse, script, SensorsOf(script)) <==>
      forall s :: s in SensorsOf(script) ==> Ingestible(parse, settings, datasets, w, s)
    ensures AllCollectable(parse, script, SensorsOf(script)) ==>
      StagedRecords(parse, script, SensorsOf(script), w) == DatasetRecords(parse, datasets, w, SensorsOf(script))
  {
    var sensors := SensorsOf(script);
    if AllCollectable(parse, script, sensors) {
      CollectableMeansIngestible(parse, server, settings, datasets, script, w, first, next);
      HealthyRecords(parse, server, settings, datasets, script, w, first, next);
    } else if forall s :: s in sensors ==> Ingestible(parse, settings, datasets, w, s) {
      IngestibleMeansFetched(parse, server, settings, datasets, script, w, first, next);
    }
  }

  lemma BatchIsStaged(parse: Parse, script: ApiScript, w: Window)
    requires BatchOf(parse, script, w).Success?
    ensures var batch := BatchOf(parse, script, w).value;
      && batch.locations == script.Discovery().value.records
      && batch.measurements == StagedRecords(parse, script, SensorsOf(script), w)
  {
    HarvestStages(parse, script, SensorsOf(script), w);
  }

  /**
   * Against a server that chunks datasets and whose failures pass, a collection is a function of the
   * datasets: it succeeds exactly when they are ingestible, and its batch is exactly theirs.
   */
  lemma HealthyCollection(parse: Parse, server: (Query, nat) -> Exchange, settings: Settings,
                          datasets: Endpoint -> seq<Json>, script: ApiScript, w: Window, first: nat, next: nat)
    requires settings.pageSize >= 1 && w.from < w.to && Healthy(server, datasets, settings)
    requires CollectedBy(server, settings, parse, script, w, first, next)
    ensures var batch := BatchOf(parse, script, w);
      && (batch.Success? <==> DatasetsIngestible(parse, settings, datasets, w))
      && (batch.Success? ==>
            && batch.value.locations == datasets(Locations)
            && batch.value.measurements ==
                 DatasetRecords(parse, datasets, w, TargetSensors(datasets(Locations)).value))
  {
    HealthyDiscovery(server, settings, datasets, script, w, first, next);
    HealthySensors(parse, server, settings, datasets, script, w, first, next);
    CollectionSucceedsIff(parse, script, w);
    DiscoverySucceedsIff(datasets(Locations));
    if BatchOf(parse, script, w).Success? {
      BatchIsStaged(parse, script, w);
    }
  }

  /**
   * So a run against such a server can publish exactly when its datasets are ingestible and write no
   * instant in two ways; if then nothing fails, it does.
   */
  lemma HealthyRunCanPublish(parse: Parse, server: (Query, nat) -> Exchange, settings: Settings,
                             datasets: Endpoint -> seq<Json>, script: ApiScript, first: nat, next: nat,
                             load: LoadId, start: Datetime, end: Datetime, w: Window, journal: seq<Op>, now: Instant)
    requires settings.pageSize >= 1 && Healthy(server, datasets, settings)
    requires RefreshWindowForInterval(start, end) == Some(w)
    requires CollectedBy(server, settings, parse, script, w, first, next)
    ensures CanPublish(parse, script, load, start, end, journal, now) <==>
      && load != "" && DatasetsIngestible(parse, settings, datasets, w)
      && NoAliases(parse, DatasetRecords(parse, datasets, w, TargetSensors(datasets(Locations)).value))
  {
    HealthyCollection(parse, server, settings, datasets, script, w, first, next);
    if BatchOf(parse, script, w).Success? {
      BatchIsCastable(parse, script, Utc(w.from), Utc(w.to));
      RunCommitsIffNoAliases(parse, script, load, w, journal, now);
    }
  }

  /** A target sensor with this id is listed by a location of an ingested provider. */
  ghost predicate Targeted(datasets: Endpoint -> seq<Json>, id: int) {
    exists l, s :: l in datasets(Locations) && FromIngested(l) && Offers(l, s) && IsTarget(s) && Field(s, "id", Int(id))
  }

  /** The row is a record of its sensor's dataset, of its own parameter and time. */
  ghost predicate OfDatasets(parse: Parse, datasets: Endpoint -> seq<Json>, w: Window, x: Measurement) {
    && Targeted(datasets, x.key.sensor)
    && x.raw in datasets(Measurements(x.key.sensor, w.from, w.to))
    && Denotes(parse, x.raw, x.key.parameter, x.key.at)
  }

  /** The window holds the in-window records of the datasets, each once, and the load's snapshot is the locations. */
  ghost predicate HoldsTheDatasets(parse: Parse, datasets: Endpoint -> seq<Json>, db: Database, load: LoadId, w: Window)
  {
    var locations := datasets(Locations);
    && TargetSensors(locations).Some?
    && var records := DatasetRecords(parse, datasets, w, TargetSensors(locations).value);
       && Castable(parse, records)
       && multiset(BronzeWithin(db, w.from, w.to)) == multiset(CastAll(parse, records))
       && (forall x: Measurement ::
             x in BronzeWithin(db, w.from, w.to) <==> w.from <= x.key.at < w.to && OfDatasets(parse, datasets, w, x))
       && exists now :: Filter(SnapshotBy(load), db.snapshots) == SnapshotRows(locations, load, w.to, now)
  }

  ghost predicate SensorGives(parse: Parse, datasets: Endpoint -> seq<Json>, w: Window, sensor: Json,
                              m: StagedMeasurement)
  {
    && Field(sensor, "id", Int(m.sensor)) && m.raw in datasets(Measurements(m.sensor, w.from, w.to))
    && Stageable(parse, w, m)
  }

  lemma InDatasetIn(parse: Parse, settings: Settings, datasets: Endpoint -> seq<Json>, w: Window, sensor: Json,
                    m: StagedMeasurement)
    requires Ingestible(parse, settings, datasets, w, sensor)
    ensures m in InDataset(parse, datasets, w, sensor) <==> SensorGives(parse, datasets, w, sensor, m)
  {
    var id := SensorId(sensor).value;
    var records := datasets(Measurements(id, w.from, w.to));
    SensorIdIs(sensor, m.sensor);
    SortingSucceedsIff(parse, id, records, w);
    SortedRecords(parse, id, records, w, m);
  }

  lemma {:induction false} DatasetRecordsIn(parse: Parse, settings: Settings, datasets: Endpoint -> seq<Json>,
                                            w: Window, sensors: seq<Json>, m: StagedMeasurement)
    requires forall s :: s in sensors ==> Ingestible(parse, settings, datasets, w, s)
    ensures m in DatasetRecords(parse, datasets, w, sensors) <==>
      exists s :: s in sensors && SensorGives(parse, datasets, w, s, m)
  {
    if sensors == [] {
    } else {
      var front, last := sensors[..|sensors| - 1], sensors[|sensors| - 1];
      assert sensors == front + [last];
      DatasetRecordsIn(parse, settings, datasets, w, front, m);
      InDatasetIn(parse, settings, datasets, w, last, m);
    }
  }

  lemma TargetedIff(datasets: Endpoint -> seq<Json>, id: int)
    requires TargetSensors(datasets(Locations)).Some?
    ensures Targeted(datasets, id) <==>
      exists s :: s in TargetSensors(datasets(Locations)).value && Field(s, "id", Int(id))
  {
    var locations := datasets(Locations);
    if s :| s in TargetSensors(locations).value && Field(s, "id", Int(id)) {
      TargetSensorsIn(locations, s);
      var l :| l in locations && FromIngested(l) && Offers(l, s);
      assert IsTarget(s);
    }
    if Targeted(datasets, id) {
      var l, s :| l in locations && FromIngested(l) && Offers(l, s) && IsTarget(s) && Field(s, "id", Int(id));
      TargetSensorsIn(locations, s);
    }
  }

  lemma GivenBySensor(parse: Parse, datasets: Endpoint -> seq<Json>, w: Window, sensors: seq<Json>, x: Measurement)
    returns (m: StagedMeasurement, s: Json)
    requires TargetSensors(datasets(Locations)) == Some(sensors)
    requires w.from <= x.key.at < w.to && OfDatasets(parse, datasets, w, x)
    ensures s in sensors && SensorGives(parse, datasets, w, s, m) && CastsTo(parse, m, x)
  {
    TargetedIff(datasets, x.key.sensor);
    var start :| Identifies(x.raw, start, x.key.parameter) && parse(start) == Some(x.key.at);
    s :| s in sensors && Field(s, "id", Int(x.key.sensor));
    m := StagedMeasurement(x.key.sensor, x.key.parameter, start, x.raw);
  }

  lemma DatasetRowsIn(parse: Parse, settings: Settings, datasets: Endpoint -> seq<Json>, w: Window, x: Measurement)
    requires DatasetsIngestible(parse, settings, datasets, w)
    requires Castable(parse, DatasetRecords(parse, datasets, w, TargetSensors(datasets(Locations)).value))
    ensures x in CastAll(parse, DatasetRecords(parse, datasets, w, TargetSensors(datasets(Locations)).value)) <==>
      w.from <= x.key.at < w.to && OfDatasets(parse, datasets, w, x)
  {
    var sensors := TargetSensors(datasets(Locations)).value;
    var ms := DatasetRecords(parse, datasets, w, sensors);
    CastAllIn(parse, ms, x);
    TargetedIff(datasets, x.key.sensor);
    if x in CastAll(parse, ms) {
      var m :| m in ms && CastsTo(parse, m, x);
      DatasetRecordsIn(parse, settings, datasets, w, sensors, m);
    }
    if w.from <= x.key.at < w.to && OfDatasets(parse, datasets, w, x) {
      var m, s := GivenBySensor(parse, datasets, w, sensors, x);
      DatasetRecordsIn(parse, settings, datasets, w, sensors, m);
    }
  }

  lemma BatchHoldsTheDatasets(parse: Parse, settings: Settings, datasets: Endpoint -> seq<Json>, script: ApiScript,
                              load: LoadId, w: Window, before: seq<Op>, now: Instant, summaries: seq<Op>,
                              after: seq<Op>)
    requires PublishedPart(parse, script, load, w, before, now, summaries, after)
    requires DatasetsIngestible(parse, settings, datasets, w)
    requires BatchOf(parse, script, w).value.locations == datasets(Locations)
    requires BatchOf(parse, script, w).value.measurements ==
      DatasetRecords(parse, datasets, w, TargetSensors(datasets(Locations)).value)
    ensures HoldsTheDatasets(parse, datasets, Replay(EMPTY, after), load, w)
  {
    RunPublishesTheBatch(parse, script, load, w, before, now, summaries, after);
    var window := BronzeWithin(Replay(EMPTY, after), w.from, w.to);
    var rows := CastAll(parse, BatchOf(parse, script, w).value.measurements);
    forall x: Measurement ensures x in window <==> w.from <= x.key.at < w.to && OfDatasets(parse, datasets, w, x) {
      DatasetRowsIn(parse, settings, datasets, w, x);
      assert x in multiset(window) <==> x in multiset(rows);
    }
    assert Filter(SnapshotBy(load), Replay(EMPTY, after).snapshots) ==
      SnapshotRows(datasets(Locations), load, w.to, now);
  }

  lemma HealthyRunPublished(parse: Parse, server: (Query, nat) -> Exchange, settings: Settings,
                            datasets: Endpoint -> seq<Json>, script: ApiScript, first: nat, next: nat,
                            load: LoadId, w: Window, before: seq<Op>, after: seq<Op>)
    requires settings.pageSize >= 1 && w.from < w.to && Healthy(server, datasets, settings)
    requires CollectedBy(server, settings, parse, script, w, first, next)
    requires Publishes(parse, script, load, w, before, after)
    ensures DatasetsIngestible(parse, settings, datasets, w)
    ensures NoAliases(parse, DatasetRecords(parse, datasets, w, TargetSensors(datasets(Locations)).value))
    ensures HoldsTheDatasets(parse, datasets, Replay(EMPTY, after), load, w)
  {
    var now, summaries :| PublishedPart(parse, script, load, w, before, now, summaries, after);
    HealthyCollection(parse, server, settings, datasets, script, w, first, next);
    RunCommitsIffNoAliases(parse, script, load, w, before, now);
    BatchHoldsTheDatasets(parse, settings, datasets, script, load, w, before, now, summaries, after);
  }

  /**
   * A run in which nothing but passing failures of the API goes wrong publishes exactly when its load ID
   * is not empty, its interval has a window, and the datasets can be fetched, read and told apart; and
   * then bronze holds them.
   */
  method RunAgainstHealthyApi(dag: IngestDag, load: LoadId, start: Datetime, end: Datetime, api: OpenAQClient,
                              refreshAt: Instant, recordAt: nat -> Instant, faults: Faults,
                              ghost datasets: Endpoint -> seq<Json>)
    returns (emitted: bool)
    requires dag.Valid() && api.Valid() && Quiet(faults) && Healthy(api.server, datasets, api.Config())
    modifies dag.warehouse, dag`assets, api, api.limiter, api.clock
    ensures dag.Valid() && api.Valid()
    ensures var window := RefreshWindowForInterval(start, end);
      emitted <==>
        && load != "" && window.Some?
        && DatasetsIngestible(dag.warehouse.parse, api.Config(), datasets, window.value)
        && NoAliases(dag.warehouse.parse, DatasetRecords(dag.warehouse.parse, datasets, window.value,
                                                         TargetSensors(datasets(Locations)).value))
    ensures emitted ==>
      HoldsTheDatasets(dag.warehouse.parse, datasets, dag.warehouse.Contents(), load,
                       RefreshWindowForInterval(start, end).value)
  {
    ghost var parse, before, first := dag.warehouse.parse, dag.warehouse.journal, api.attempts;
    ghost var script;
    emitted, script := dag.Run(load, start, end, api, refreshAt, recordAt, faults);
    ghost var window := RefreshWindowForInterval(start, end);
    if window.Some? {
      HealthyRunCanPublish(parse, api.server, api.Config(), datasets, script, first, api.attempts, load, start, end,
                           window.value, before, refreshAt);
      if emitted {
        HealthyRunPublished(parse, api.server, api.Config(), datasets, script, first, api.attempts, load,
                            window.value, before, dag.warehouse.journal);
      }
    }
  }
}
