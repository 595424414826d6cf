// Collecting one location snapshot and one window of measurements from the API.
module Ingest {
  import opened ApiRecords
  import opened Client
  import opened Json
  import opened Pagination
  import opened StagedMeasurements
  import opened Tables
  import opened Times
  import opened Wrappers

  const TARGET_PARAMETERS := {"pm25", "pm10", "no2", "o3", "so2", "co", "bc"}

  datatype IngestError = ValueError | AttributeError | Api(error: ApiError)

  /** What the API calls of one collection came to: discovery, then the fetch of each sensor it got to. */
  datatype ApiScript = ApiScript(walks: seq<Walk>) {
    function Discovery(): Result<FetchResult, ApiError> {
      if walks == [] then Failure(TransportError) else walks[0].result
    }

    /** What the n-th sensor's fetch came to; a sensor never asked for reads as an error that ends a collection. */
    function Reply(n: nat): Result<FetchResult, ApiError> {
      if n + 1 < |walks| then walks[n + 1].result else Failure(TransportError)
    }
  }

  const NO_CALLS := ApiScript([])

  datatype IngestBatch = IngestBatch(locations: seq<Json>, measurements: seq<StagedMeasurement>, locationCount: nat,
                                     sensorCount: nat, apiRecordCount: nat, excludedRecordCount: nat,
                                     serverErrorSensorCount: nat)

  // ---- sensors in scope

  function ProviderId(location: map<string, Json>): Json {
    var provider := Get(location, "provider");
    if provider.Obj? then Get(provider.fields, "id") else Null
  }

  /** Whether a location belongs to an ingested provider; a failure is a Python type or attribute error. */
  function FromIngestProvider(location: Json): Option<bool> {
    if !location.Obj? then None
    else
      var id := ProviderId(location.fields);
      if Hashable(id) then Some(id == Int(66) || id == Int(70)) else None
  }

  function SensorsFromLocation(location: Json): Option<seq<Json>> {
    if !location.Obj? then None
    else
      var sensors := Get(location.fields, "sensors");
      if !Truthy(sensors) then Some([]) else if sensors.Arr? then Some(sensors.items) else None
  }

  function LowerChar(c: char): char {
    if 'A' <= c <= 'Z' then c - 'A' + 'a' else c
  }

  function Lower(s: string): string {
    seq(|s|, i requires 0 <= i < |s| => LowerChar(s[i]))
  }

  /** Whether a sensor measures a target parameter, by the lower-cased name. */
  function MeasuresTarget(sensor: Json): Option<bool> {
    if !sensor.Obj? then None
    else
      match OrEmpty(Get(sensor.fields, "parameter"))
      case None => None
      case Some(parameter) =>
        var name := Get(parameter, "name");
        if !Truthy(name) then Some(false)
        else if name.Str? then Some(Lower(name.s) in TARGET_PARAMETERS)
        else None
  }

  function FilterSensors(sensors: seq<Json>): Option<seq<Json>> {
    if sensors == [] then Some([])
    else
      match (FilterSensors(sensors[..|sensors| - 1]), MeasuresTarget(sensors[|sensors| - 1]))
      case (Some(kept), Some(wanted)) => Some(kept + if wanted then [sensors[|sensors| - 1]] else [])
      case _ => None
  }

  /** The target sensors of the ingested providers' locations, in order. */
  function TargetSensors(locations: seq<Json>): Option<seq<Json>> {
    if locations == [] then Some([])
    else
      var location := locations[|locations| - 1];
      match (TargetSensors(locations[..|locations| - 1]), FromIngestProvider(location))
      case (Some(before), Some(false)) => Some(before)
      case (Some(before), Some(true)) =>
        (match SensorsFromLocation(location)
         case None => None
         case Some(sensors) =>
           match FilterSensors(sensors)
           case None => None
           case Some(kept) => Some(before + kept))
      case _ => None
  }

  /** The name of a target pollutant, up to the case of its letters. */
  predicate NamesTarget(name: string) {
    || SameName(name, "pm25") || SameName(name, "pm10") || SameName(name, "no2") || SameName(name, "o3")
    || SameName(name, "so2") || SameName(name, "co") || SameName(name, "bc")
  }

  ghost predicate IsTarget(sensor: Json) {
    exists name :: Measures(sensor, name) && NamesTarget(name)
  }

  predicate FromIngested(location: Json) {
    FromProvider(location, Int(66)) || FromProvider(location, Int(70))
  }

  /** Lower-casing gives a lower-case name exactly when the two differ in case only. */
  lemma LowerIs(name: string, target: string)
    requires forall i :: 0 <= i < |target| ==> !('A' <= target[i] <= 'Z')
    ensures Lower(name) == target <==> SameName(name, target)
  {
    assert |Lower(name)| == |name| && forall i :: 0 <= i < |name| ==> Lower(name)[i] == LowerChar(name[i]);
  }

  lemma TargetNameIs(name: string)
    ensures Lower(name) in TARGET_PARAMETERS <==> NamesTarget(name)
  {
    forall target | target in TARGET_PARAMETERS ensures Lower(name) == target <==> SameName(name, target) {
      LowerIs(name, target);
    }
  }

  lemma MeasuresTargetIff(sensor: Json)
    ensures MeasuresTarget(sensor) == Some(true) <==> IsTarget(sensor)
  {
    if sensor.Obj? && Get(sensor.fields, "parameter").Obj? {
      var parameter := Get(sensor.fields, "parameter");
      var name := Get(parameter.fields, "name");
      TruthyIff(parameter);
      TruthyIff(name);
      if name.Str? {
        assert Measures(sensor, name.s);
        TargetNameIs(name.s);
      }
      TargetNameIs("");
    }
  }

  ghost function Targets(): Json -> bool {
    (sensor: Json) => IsTarget(sensor)
  }

  lemma {:induction false} FilterSensorsAre(sensors: seq<Json>)
    requires FilterSensors(sensors).Some?
    ensures FilterSensors(sensors).value == Filter(Targets(), sensors)
  {
    if sensors == [] {
    } else {
      FilterSensorsAre(sensors[..|sensors| - 1]);
      MeasuresTargetIff(sensors[|sensors| - 1]);
    }
  }

  /** The sensors a location lists. */
  function Listed(location: Json): seq<Json> {
    if location.Obj? && "sensors" in location.fields && location.fields["sensors"].Arr?
    then location.fields["sensors"].items else []
  }

  lemma ListedAre(location: Json)
    requires SensorsFromLocation(location).Some?
    ensures SensorsFromLocation(location).value == Listed(location)
  {
    TruthyIff(Get(location.fields, "sensors"));
  }

  /** Location by location, in order: its target sensors as it lists them, if its provider is an ingested one. */
  lemma TargetSensorsGrow(front: seq<Json>, location: Json)
    requires TargetSensors(front + [location]).Some?
    ensures TargetSensors(front).Some?
    ensures TargetSensors(front + [location]).value ==
      TargetSensors(front).value + if FromIngested(location) then Filter(Targets(), Listed(location)) else []
  {
    assert (front + [location])[..|front|] == front;
    if FromIngested(location) {
      ListedAre(location);
      FilterSensorsAre(Listed(location));
    }
  }

  lemma OneMoreLocation(front: seq<Json>, location: Json, s: Json)
    ensures (exists l :: l in front + [location] && FromIngested(l) && Offers(l, s)) <==>
      (exists l :: l in front && FromIngested(l) && Offers(l, s)) || (FromIngested(location) && Offers(location, s))
  {
    assert location in front + [location];
  }

  /**
   * A sensor is fetched exactly when a location of provider 66 or 70 lists it and it measures one of seven
   * pollutants.
   */
  lemma {:induction false} TargetSensorsIn(locations: seq<Json>, s: Json)
    requires TargetSensors(locations).Some?
    ensures s in TargetSensors(locations).value <==>
      && (exists name :: Measures(s, name) && NamesTarget(name))
      && (exists l :: l in locations && FromIngested(l) && Offers(l, s))
  {
    if locations == [] {
    } else {
      var front, last := locations[..|locations| - 1], locations[|locations| - 1];
      assert locations == front + [last];
      TargetSensorsGrow(front, last);
      TargetSensorsIn(front, s);
      OneMoreLocation(front, last, s);
      FilterIn(Targets(), Listed(last));
      assert IsTarget(s) <==> Targets()(s);
    }
  }

  function SensorFor(id: int, name: string): Json {
    Obj(map["id" := Int(id), "parameter" := Obj(map["name" := Str(name)])])
  }

  lemma NameDecides(id: int, name: string)
    requires name != ""
    ensures MeasuresTarget(SensorFor(id, name)) == Some(NamesTarget(name))
  {
    assert "name" in map["name" := Str(name)];
    TargetNameIs(name);
  }

  lemma FilterOneMore(front: seq<Json>, last: Json, kept: seq<Json>)
    requires FilterSensors(front) == Some(kept) && MeasuresTarget(last).Some?
    ensures FilterSensors(front + [last]) == Some(if MeasuresTarget(last).value then kept + [last] else kept)
  {
    assert (front + [last])[..|front|] == front;
    assert kept + [] == kept;
  }

  lemma OneLocation(location: Json, sensors: seq<Json>, kept: seq<Json>)
    requires FromIngestProvider(location) == Some(true) && SensorsFromLocation(location) == Some(sensors)
    requires FilterSensors(sensors) == Some(kept)
    ensures TargetSensors([location]) == Some(kept)
  {
    assert [location][..0] == [] && [] + kept == kept;
  }

  /** A PM2.5 sensor of provider 66 is fetched, and a thermometer is not. */
  lemma OnlyPollutantsAreFetched(id: int)
    ensures var pm25, thermometer := SensorFor(id, "PM25"), SensorFor(id, "temperature");
      var location := Obj(map["provider" := Obj(map["id" := Int(66)]), "sensors" := Arr([pm25, thermometer])]);
      TargetSensors([location]) == Some([pm25])
  {
    var pm25, thermometer := SensorFor(id, "PM25"), SensorFor(id, "temperature");
    var location := Obj(map["provider" := Obj(map["id" := Int(66)]), "sensors" := Arr([pm25, thermometer])]);
    NameDecides(id, "PM25");
    NameDecides(id, "temperature");
    FilterOneMore([], pm25, []);
    FilterOneMore([pm25], thermometer, [pm25]);
    assert [] + [pm25] == [pm25] && [pm25] + [thermometer] == [pm25, thermometer];
    OneLocation(location, [pm25, thermometer], [pm25]);
  }

  predicate ReadableSensor(sensor: Json) {
    && sensor.Obj?
    && ("parameter" in sensor.fields ==>
          var parameter := sensor.fields["parameter"];
          && !NotMapping(parameter)
          && (parameter.Obj? && "name" in parameter.fields ==>
                parameter.fields["name"].Str? || parameter.fields["name"] in FALSY))
  }

  /** A list of readable sensors, or a value that is false, which stands for an empty one. */
  predicate ReadableSensors(sensors: Json) {
    sensors in FALSY || (sensors.Arr? && forall s :: s in sensors.items ==> ReadableSensor(s))
  }

  /** An object with no unhashable provider id; one of an ingested provider also needs readable sensors, if any. */
  ghost predicate ReadableLocation(location: Json) {
    && location.Obj?
    && (forall id :: FromProvider(location, id) ==> !id.Arr? && !id.Obj?)
    && (FromIngested(location) && "sensors" in location.fields ==> ReadableSensors(location.fields["sensors"]))
  }

  lemma MeasuringIsReadable(sensor: Json)
    ensures MeasuresTarget(sensor).Some? <==> ReadableSensor(sensor)
  {
    if sensor.Obj? {
      var parameter := Get(sensor.fields, "parameter");
      TruthyIff(parameter);
      if parameter.Obj? {
        TruthyIff(Get(parameter.fields, "name"));
      }
    }
  }

  lemma {:induction false} FilteringSucceedsIff(sensors: seq<Json>)
    ensures FilterSensors(sensors).Some? <==> forall s :: s in sensors ==> ReadableSensor(s)
  {
    if sensors == [] {
    } else {
      var front, last := sensors[..|sensors| - 1], sensors[|sensors| - 1];
      assert sensors == front + [last];
      FilteringSucceedsIff(front);
      MeasuringIsReadable(last);
      assert last in sensors;
    }
  }

  lemma ProviderIsRead(location: Json)
    ensures FromIngestProvider(location).Some? <==>
      location.Obj? && forall id :: FromProvider(location, id) ==> !id.Arr? && !id.Obj?
    ensures FromIngestProvider(location) == Some(true) <==> FromIngested(location)
  {
    if location.Obj? {
      assert ProviderId(location.fields) != Null ==> FromProvider(location, ProviderId(location.fields));
    }
  }

  lemma LocationIsRead(location: Json)
    ensures ReadableLocation(location) <==>
      && FromIngestProvider(location).Some?
      && (FromIngestProvider(location) == Some(true) ==>
            && SensorsFromLocation(location).Some?
            && FilterSensors(SensorsFromLocation(location).value).Some?)
  {
    ProviderIsRead(location);
    if FromIngested(location) {
      var sensors := Get(location.fields, "sensors");
      TruthyIff(sensors);
      if SensorsFromLocation(location).Some? {
        FilteringSucceedsIff(SensorsFromLocation(location).value);
      }
    }
  }

  /** Discovery fails exactly on a location or sensor record of unexpected shape. */
  lemma {:induction false} DiscoverySucceedsIff(locations: seq<Json>)
    ensures TargetSensors(locations).Some? <==> forall l :: l in locations ==> ReadableLocation(l)
  {
    if locations == [] {
    } else {
      var front, last := locations[..|locations| - 1], locations[|locations| - 1];
      assert locations == front + [last];
      DiscoverySucceedsIff(front);
      LocationIsRead(last);
      assert last in locations;
    }
  }

  // ---- records in the window

  function SensorId(sensor: Json): Option<int> {
    if sensor.Obj? && Get(sensor.fields, "id").Int? then Some(Get(sensor.fields, "id").i) else None
  }

  lemma SensorIdIs(sensor: Json, id: int)
    ensures SensorId(sensor) == Some(id) <==> Field(sensor, "id", Int(id))
  {
  }

  /** One record of a sensor's answer: staged, excluded because outside the window, or refused. */
  datatype Sorting = Staged(m: StagedMeasurement) | Excluded | Refused(error: IngestError)

  function Sort(parse: Parse, sensor: int, record: Json, w: Window): Sorting {
    if !record.Obj? then Refused(AttributeError)
    else
      match FromApi(sensor, record)
      case None => Refused(ValueError)
      case Some(m) =>
        match parse(m.periodFrom)
        case None => Refused(ValueError)
        case Some(at) => if w.Covers(at) then Staged(m) else Excluded
  }

  /** The row has its record's own start and parameter, and starts in the window. */
  predicate Stageable(parse: Parse, w: Window, m: StagedMeasurement) {
    && Identifies(m.raw, m.periodFrom, m.parameter)
    && parse(m.periodFrom).Some? && w.from <= parse(m.periodFrom).value < w.to
  }

  /** The record has a parameter and a start that can be read. */
  ghost predicate Readable(parse: Parse, record: Json) {
    exists start, parameter :: Identifies(record, start, parameter) && parse(start).Some?
  }

  ghost predicate StartsOutside(parse: Parse, record: Json, w: Window) {
    exists start, parameter ::
      Identifies(record, start, parameter) && parse(start).Some? && !(w.from <= parse(start).value < w.to)
  }

  /** A record is staged exactly as itself: kept whole, with its own start and parameter. */
  lemma SortIs(parse: Parse, sensor: int, record: Json, w: Window, m: StagedMeasurement)
    ensures Sort(parse, sensor, record, w) == Staged(m) <==>
      m.sensor == sensor && m.raw == record && Stageable(parse, w, m)
  {
    FromApiIs(sensor, record, m);
  }

  /** Otherwise it starts outside the window, or cannot be read. */
  lemma NotStagedIs(parse: Parse, sensor: int, record: Json, w: Window)
    ensures Sort(parse, sensor, record, w).Excluded? <==> StartsOutside(parse, record, w)
    ensures Sort(parse, sensor, record, w).Refused? <==> !Readable(parse, record)
    ensures Sort(parse, sensor, record, w).Refused? ==>
      Sort(parse, sensor, record, w).error == if record.Obj? then ValueError else AttributeError
  {
    if FromApi(sensor, record).Some? {
      FromApiIs(sensor, record, FromApi(sensor, record).value);
    } else {
      assert forall start, parameter :: !Identifies(record, start, parameter);
    }
  }

  /** A sensor's records sorted, or the error of the first one refused. */
  datatype Sorted = Sorted(staged: seq<StagedMeasurement>, excluded: nat)

  function SortAll(parse: Parse, sensor: int, records: seq<Json>, w: Window): Result<Sorted, IngestError> {
    if records == [] then Success(Sorted([], 0))
    else
      var before :- SortAll(parse, sensor, records[..|records| - 1], w);
      match Sort(parse, sensor, records[|records| - 1], w)
      case Refused(e) => Failure(e)
      case Staged(m) => Success(before.(staged := before.staged + [m]))
      case Excluded => Success(before.(excluded := before.excluded + 1))
  }

  /** What the sensors so far contributed; a sensor that hit a persistent server error contributes nothing. */
  datatype Harvest = Harvest(staged: seq<StagedMeasurement>, apiRecords: nat, excluded: nat, serverErrors: nat)

  function AddSorted(before: Harvest, sorted: Sorted, fetched: nat): Harvest {
    Harvest(before.staged + sorted.staged, before.apiRecords + fetched, before.excluded + sorted.excluded,
            before.serverErrors)
  }

  /** The harvest after one more sensor has answered. */
  function TakeReply(parse: Parse, before: Harvest, id: int, reply: Result<FetchResult, ApiError>, w: Window):
    Result<Harvest, IngestError>
  {
    match reply
    case Failure(e) =>
      if e.ServerError? then Success(before.(serverErrors := before.serverErrors + 1)) else Failure(Api(e))
    case Success(fetched) =>
      var sorted :- SortAll(parse, id, fetched.records, w);
      Success(AddSorted(before, sorted, |fetched.records|))
  }

  function TakeSensor(parse: Parse, script: ApiScript, before: Harvest, n: nat, sensor: Json, w: Window):
    Result<Harvest, IngestError>
  {
    match SensorId(sensor)
    case None => Failure(ValueError)
    case Some(id) => TakeReply(parse, before, id, script.Reply(n), w)
  }

  function HarvestOf(parse: Parse, script: ApiScript, sensors: seq<Json>, w: Window): Result<Harvest, IngestError> {
    if sensors == [] then Success(Harvest([], 0, 0, 0))
    else
      var n := |sensors| - 1;
      var before :- HarvestOf(parse, script, sensors[..n], w);
      TakeSensor(parse, script, before, n, sensors[n], w)
  }

  predicate UniqueIdentities(ms: seq<StagedMeasurement>) {
    forall i, j :: 0 <= i < j < |ms| ==> ms[i].Identity() != ms[j].Identity()
  }

  /** The batch a collection returns, or the error it raises. */
  function Collected(parse: Parse, script: ApiScript, start: Datetime, end: Datetime):
    Result<IngestBatch, IngestError>
  {
    match (NormaliseUtc(start), NormaliseUtc(end))
    case (Some(from), Some(to)) =>
      if from >= to then Failure(ValueError)
      else if script.Discovery().Failure? then Failure(Api(script.Discovery().error))
      else
        var locations := script.Discovery().value.records;
        (match TargetSensors(locations)
         case None => Failure(AttributeError)
         case Some(sensors) =>
           var harvest :- HarvestOf(parse, script, sensors, Window(from, to));
           if !UniqueIdentities(harvest.staged) then Failure(ValueError)
           else Success(IngestBatch(locations, harvest.staged, |locations|, |sensors|, harvest.apiRecords,
                                    harvest.excluded, harvest.serverErrors)))
    case _ => Failure(ValueError)
  }

  // ---- the loops that compute it

  /** Grows a set of identities, and stops at the first one already in it. */
  method RejectDuplicateIdentities(ms: seq<StagedMeasurement>) returns (accepted: bool)
    ensures accepted <==> UniqueIdentities(ms)
  {
    var identities: set<(int, int, string)> := {};
    for k := 0 to |ms|
      invariant UniqueIdentities(ms[..k])
      invariant forall identity :: identity in identities <==> exists i :: 0 <= i < k && ms[i].Identity() == identity
    {
      var identity := ms[k].Identity();
      if identity in identities {
        var i :| 0 <= i < k && ms[i].Identity() == identity;
        return false;
      }
      identities := identities + {identity};
    }
    assert ms[..|ms|] == ms;
    accepted := true;
  }

  /** A refused record ends the sorting with its error. */
  lemma {:induction false} RefusalStays(parse: Parse, sensor: int, records: seq<Json>, w: Window, n: nat)
    requires n <= |records| && SortAll(parse, sensor, records[..n], w).Failure?
    ensures SortAll(parse, sensor, records, w) == SortAll(parse, sensor, records[..n], w)
    decreases |records| - n
  {
    if n < |records| {
      assert records[..n + 1][..n] == records[..n];
      RefusalStays(parse, sensor, records, w, n + 1);
    } else {
      assert records[..n] == records;
    }
  }

  /** Sorts one sensor's records into staged and excluded ones, or stops at the first refused. */
  method SortRecords(parse: Parse, sensor: int, records: seq<Json>, w: Window) returns (r: Result<Sorted, IngestError>)
    ensures r == SortAll(parse, sensor, records, w)
  {
    var staged: seq<StagedMeasurement>, excluded: nat := [], 0;
    for i := 0 to |records|
      invariant SortAll(parse, sensor, records[..i], w) == Success(Sorted(staged, excluded))
    {
      assert records[..i + 1][..i] == records[..i];
      match Sort(parse, sensor, records[i], w) {
        case Refused(e) =>
          RefusalStays(parse, sensor, records, w, i + 1);
          return Failure(e);
        case Staged(m) => staged := staged + [m];
        case Excluded => excluded := excluded + 1;
      }
    }
    assert records[..|records|] == records;
    r := Success(Sorted(staged, excluded));
  }

  /** The target sensors that discovery found. */
  function SensorsOf(script: ApiScript): seq<Json> {
    if script.Discovery().Failure? then []
    else
      match TargetSensors(script.Discovery().value.records)
      case None => []
      case Some(sensors) => sensors
  }

  /** The walk is the fetch of this sensor's window. */
  ghost predicate SensorFetched(server: (Query, nat) -> Exchange, settings: Settings, sensor: Json, w: Window,
                                walk: Walk)
  {
    && SensorId(sensor).Some?
    && WalkedBy(server, settings, Measurements(SensorId(sensor).value, w.from, w.to), MeasurementIdentity, walk)
  }

  /** The i-th walk of a collection, made of the attempts `first` to n: discovery, then sensor after sensor. */
  ghost function WalkCame(server: (Query, nat) -> Exchange, settings: Settings, sensors: seq<Json>, w: Window):
    (nat, nat, nat, Walk) -> bool
  {
    (i: nat, first: nat, n: nat, walk: Walk) =>
      && (if i == 0 then WalkedBy(server, settings, Locations, LocationIdentity, walk)
          else i <= |sensors| && SensorFetched(server, settings, sensors[i - 1], w, walk))
      && walk.from == first && walk.Next() == n + 1
  }

  /** The last attempt of each walk. */
  function Ends(walks: seq<Walk>): seq<nat> {
    seq(|walks|, i requires 0 <= i < |walks| => if walks[i].at == [] then 0 else walks[i].at[|walks[i].at| - 1])
  }

  /** The script is made of the server's own answers, to the attempts from `first` up to `next`, all of them. */
  ghost predicate FetchedBy(server: (Query, nat) -> Exchange, settings: Settings, script: ApiScript, w: Window,
                            first: nat, next: nat)
  {
    && InTurn(WalkCame(server, settings, SensorsOf(script), w), script.walks, first, Ends(script.walks))
    && next == FirstAttempt(first, Ends(script.walks), |script.walks|)
  }

  /** A walk that came right after the others continues the collection. */
  lemma WalksGrow(came: (nat, nat, nat, Walk) -> bool, walks: seq<Walk>, first: nat, walk: Walk, more: seq<Walk>)
    requires InTurn(came, walks, first, Ends(walks)) && walk.at != [] && more == walks + [walk]
    requires came(|walks|, FirstAttempt(first, Ends(walks), |walks|), walk.at[|walk.at| - 1], walk)
    ensures InTurn(came, more, first, Ends(more)) && FirstAttempt(first, Ends(more), |more|) == walk.Next()
  {
    var end := walk.at[|walk.at| - 1];
    assert Ends(more) == Ends(walks) + [end];
    InTurnGrows(came, walks, first, Ends(walks), walk, end);
  }

  lemma WalkCameNow(server: (Query, nat) -> Exchange, settings: Settings, sensors: seq<Json>, w: Window, i: nat,
                    walk: Walk)
    requires if i == 0 then WalkedBy(server, settings, Locations, LocationIdentity, walk)
             else i <= |sensors| && SensorFetched(server, settings, sensors[i - 1], w, walk)
    ensures walk.at != []
    ensures WalkCame(server, settings, sensors, w)(i, walk.from, walk.at[|walk.at| - 1], walk)
  {
    assert |walk.at| == |walk.Answers()| == |walk.pages| + 1;
    assert walk.Next() == walk.at[|walk.at| - 1] + 1;
    assert i > 0 ==> SensorFetched(server, settings, sensors[i - 1], w, walk);
    assert i == 0 ==> WalkedBy(server, settings, Locations, LocationIdentity, walk);
  }

  lemma DiscoveryCame(server: (Query, nat) -> Exchange, settings: Settings, w: Window, walk: Walk)
    requires WalkedBy(server, settings, Locations, LocationIdentity, walk)
    ensures FetchedBy(server, settings, ApiScript([walk]), w, walk.from, walk.Next())
  {
    var sensors := SensorsOf(ApiScript([walk]));
    WalkCameNow(server, settings, sensors, w, 0, walk);
    WalksGrow(WalkCame(server, settings, sensors, w), [], walk.from, walk, [walk]);
  }

  lemma SensorCame(server: (Query, nat) -> Exchange, settings: Settings, script: ApiScript, w: Window, first: nat,
                   walk: Walk, more: ApiScript)
    requires FetchedBy(server, settings, script, w, first, walk.from)
    requires 0 < |script.walks| <= |SensorsOf(script)|
    requires SensorFetched(server, settings, SensorsOf(script)[|script.walks| - 1], w, walk)
    requires more.walks == script.walks + [walk]
    ensures FetchedBy(server, settings, more, w, first, walk.Next()) && SensorsOf(more) == SensorsOf(script)
  {
    WalkCameNow(server, settings, SensorsOf(script), w, |script.walks|, walk);
    WalksGrow(WalkCame(server, settings, SensorsOf(script), w), script.walks, first, walk, more.walks);
    assert more.Discovery() == script.Discovery();
  }

  lemma DiscoveredBy(server: (Query, nat) -> Exchange, settings: Settings, script: ApiScript, w: Window,
                     first: nat, next: nat)
    requires FetchedBy(server, settings, script, w, first, next) && script.walks != []
    ensures WalkedBy(server, settings, Locations, LocationIdentity, script.walks[0])
  {
    var walks := script.walks;
    assert WalkCame(server, settings, SensorsOf(script), w)(0, FirstAttempt(first, Ends(walks), 0), Ends(walks)[0],
                                                            walks[0]);
  }

  lemma SensorFetchedBy(server: (Query, nat) -> Exchange, settings: Settings, script: ApiScript, w: Window,
                        first: nat, next: nat, i: nat)
    requires FetchedBy(server, settings, script, w, first, next) && i + 1 < |script.walks|
    ensures i < |SensorsOf(script)| && SensorFetched(server, settings, SensorsOf(script)[i], w, script.walks[i + 1])
  {
    var walks := script.walks;
    assert WalkCame(server, settings, SensorsOf(script), w)(
        i + 1, FirstAttempt(first, Ends(walks), i + 1), Ends(walks)[i + 1], walks[i + 1]);
  }

  /**
   * The collection made the calls it needs and no other: discovery, and each sensor's fetch until one ends the
   * collection or has no usable id.
   */
  predicate CallsNeeded(parse: Parse, script: ApiScript, w: Window) {
    && script.walks != []
    && var sensors, n := SensorsOf(script), |script.walks| - 1;
       && n <= |sensors|
       && (n > 0 ==> HarvestOf(parse, script, sensors[..n - 1], w).Success?)
       && (n == |sensors| || SensorId(sensors[n]).None? || HarvestOf(parse, script, sensors[..n], w).Failure?)
  }

  /** All the calls the collection needs and no other, each answered by the server. */
  ghost predicate CollectedBy(server: (Query, nat) -> Exchange, settings: Settings, parse: Parse, script: ApiScript,
                              w: Window, first: nat, next: nat)
  {
    FetchedBy(server, settings, script, w, first, next) && CallsNeeded(parse, script, w)
  }

  lemma HarvestOfFewer(parse: Parse, script: ApiScript, sensors: seq<Json>, w: Window, n: nat)
    requires n <= |sensors| && HarvestOf(parse, script, sensors[..n], w).Success?
    ensures n > 0 ==> HarvestOf(parse, script, sensors[..n - 1], w).Success?
  {
    assert n > 0 ==> sensors[..n][..n - 1] == sensors[..n - 1];
  }

  /** A harvest depends on the fetches of its own sensors only. */
  lemma {:induction false} HarvestAgrees(parse: Parse, script: ApiScript, more: ApiScript, sensors: seq<Json>,
                                         w: Window)
    requires |sensors| < |script.walks| && script.walks <= more.walks
    ensures HarvestOf(parse, script, sensors, w) == HarvestOf(parse, more, sensors, w)
  {
    if sensors == [] {
    } else {
      HarvestAgrees(parse, script, more, sensors[..|sensors| - 1], w);
    }
  }

  /** Takes in one sensor's answer; a persistent server error skips it, any other error ends the collection. */
  method SortReply(parse: Parse, before: Harvest, id: int, reply: Result<FetchResult, ApiError>, w: Window)
    returns (r: Result<Harvest, IngestError>)
    ensures r == TakeReply(parse, before, id, reply, w)
  {
    if reply.Failure? {
      if reply.error.ServerError? {
        return Success(before.(serverErrors := before.serverErrors + 1));
      }
      return Failure(Api(reply.error));
    }
    var sorted := SortRecords(parse, id, reply.value.records, w);
    if sorted.Failure? {
      return Failure(sorted.error);
    }
    r := Success(AddSorted(before, sorted.value, |reply.value.records|));
  }

  /** The harvest after the next sensor, from the harvest before it. */
  lemma HarvestGrows(parse: Parse, script: ApiScript, more: ApiScript, sensors: seq<Json>, w: Window, i: nat)
    requires i < |sensors| && |script.walks| == i + 1 && script.walks <= more.walks
    requires HarvestOf(parse, script, sensors[..i], w).Success?
    ensures HarvestOf(parse, more, sensors[..i + 1], w) ==
      TakeSensor(parse, more, HarvestOf(parse, script, sensors[..i], w).value, i, sensors[i], w)
    ensures HarvestOf(parse, more, sensors[..i], w) == HarvestOf(parse, script, sensors[..i], w)
  {
    assert sensors[..i + 1][..i] == sensors[..i];
    HarvestAgrees(parse, script, more, sensors[..i], w);
  }

  /** Fetches the i-th sensor of a collection under way, and takes in its answer. */
  method CollectSensor(parse: Parse, api: OpenAQClient, before: Harvest, sensors: seq<Json>, i: nat, id: int,
                       w: Window, ghost script: ApiScript, ghost first: nat)
    returns (r: Result<Harvest, IngestError>, ghost more: ApiScript)
    requires api.Valid() && FetchedBy(api.server, api.Config(), script, w, first, api.attempts)
    requires |script.walks| == i + 1 <= |sensors| && SensorsOf(script) == sensors && SensorId(sensors[i]) == Some(id)
    requires HarvestOf(parse, script, sensors[..i], w) == Success(before)
    modifies api, api.limiter, api.clock
    ensures api.Valid() && FetchedBy(api.server, api.Config(), more, w, first, api.attempts)
    ensures |more.walks| == i + 2 && SensorsOf(more) == sensors && more.Discovery() == script.Discovery()
    ensures HarvestOf(parse, more, sensors[..i], w).Success?
    ensures r == HarvestOf(parse, more, sensors[..i + 1], w)
  {
    var reply, walk := api.ListMeasurements(id, w.from, w.to);
    more := ApiScript(script.walks + [walk]);
    SensorCame(api.server, api.Config(), script, w, first, walk, more);
    HarvestGrows(parse, script, more, sensors, w, i);
    r := SortReply(parse, before, id, reply, w);
  }

  /** An error at a sensor ends the collection with that error. */
  lemma {:induction false} FailureStays(parse: Parse, script: ApiScript, sensors: seq<Json>, w: Window, n: nat)
    requires n <= |sensors| && HarvestOf(parse, script, sensors[..n], w).Failure?
    ensures HarvestOf(parse, script, sensors, w) == HarvestOf(parse, script, sensors[..n], w)
    decreases |sensors| - n
  {
    if n < |sensors| {
      assert sensors[..n + 1][..n] == sensors[..n];
      FailureStays(parse, script, sensors, w, n + 1);
    } else {
      assert sensors[..n] == sensors;
    }
  }

  /** Fetches sensor after sensor, up to the first error that ends the collection. */
  method CollectSensors(parse: Parse, api: OpenAQClient, sensors: seq<Json>, w: Window, ghost discovered: ApiScript,
                        ghost first: nat)
    returns (r: Result<Harvest, IngestError>, ghost script: ApiScript)
    requires api.Valid() && FetchedBy(api.server, api.Config(), discovered, w, first, api.attempts)
    requires |discovered.walks| == 1 && SensorsOf(discovered) == sensors
    modifies api, api.limiter, api.clock
    ensures api.Valid() && FetchedBy(api.server, api.Config(), script, w, first, api.attempts)
    ensures SensorsOf(script) == sensors && script.Discovery() == discovered.Discovery()
    ensures CallsNeeded(parse, script, w)
    ensures r == HarvestOf(parse, script, sensors, w)
  {
    var harvest := Harvest([], 0, 0, 0);
    script := discovered;
    for i := 0 to |sensors|
      invariant api.Valid() && FetchedBy(api.server, api.Config(), script, w, first, api.attempts)
      invariant |script.walks| == i + 1 && SensorsOf(script) == sensors
      invariant script.Discovery() == discovered.Discovery()
      invariant HarvestOf(parse, script, sensors[..i], w) == Success(harvest)
    {
      var id := SensorId(sensors[i]);
      if id.None? {
        HarvestGrows(parse, script, script, sensors, w, i);
        HarvestOfFewer(parse, script, sensors, w, i);
        FailureStays(parse, script, sensors, w, i + 1);
        return Failure(ValueError), script;
      }
      var next;
      next, script := CollectSensor(parse, api, harvest, sensors, i, id.value, w, script, first);
      if next.Failure? {
        FailureStays(parse, script, sensors, w, i + 1);
        return next, script;
      }
      harvest := next.value;
    }
    HarvestOfFewer(parse, script, sensors, w, |sensors|);
    assert sensors[..|sensors|] == sensors;
    r := Success(harvest);
  }

  /** Collects one location snapshot and one window of measurements; `script` is what the API calls came to. */
  method CollectIngestBatch(parse: Parse, api: OpenAQClient, start: Datetime, end: Datetime)
    returns (r: Result<IngestBatch, IngestError>, ghost script: ApiScript)
    requires api.Valid()
    modifies api, api.limiter, api.clock
    ensures api.Valid()
    ensures r == Collected(parse, script, start, end)
    ensures var from, to := NormaliseUtc(start), NormaliseUtc(end);
      if from.Some? && to.Some? && from.value < to.value
      then CollectedBy(api.server, api.Config(), parse, script, Window(from.value, to.value),
                       old(api.attempts), api.attempts)
      else api.attempts == old(api.attempts)
  {
    script := NO_CALLS;
    var from, to := NormaliseUtc(start), NormaliseUtc(end);
    if from.None? || to.None? || from.value >= to.value {
      return Failure(ValueError), script;
    }
    var w := Window(from.value, to.value);
    var found, walk := api.ListLocations();
    script := ApiScript([walk]);
    DiscoveryCame(api.server, api.Config(), w, walk);
    if found.Failure? {
      return Failure(Api(found.error)), script;
    }
    var targets := TargetSensors(found.value.records);
    if targets.None? {
      return Failure(AttributeError), script;
    }
    var harvest;
    harvest, script := CollectSensors(parse, api, targets.value, w, script, old(api.attempts));
    if harvest.Failure? {
      return Failure(harvest.error), script;
    }
    var accepted := RejectDuplicateIdentities(harvest.value.staged);
    if !accepted {
      return Failure(ValueError), script;
    }
    r := Success(IngestBatch(found.value.records, harvest.value.staged, |found.value.records|, |targets.value|,
                             harvest.value.apiRecords, harvest.value.excluded, harvest.value.serverErrors));
  }
}
