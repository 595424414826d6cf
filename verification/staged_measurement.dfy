// One API measurement prepared for staging; its period start is still the API's own string.
module StagedMeasurements {
  import opened ApiRecords
  import opened Join
  import opened Json
  import opened Wrappers

  datatype StagedMeasurement = StagedMeasurement(sensor: int, parameter: int, periodFrom: string, raw: Json) {
    /** The identity the client checks for repetition, on strings. */
    function Identity(): (int, int, string) {
      (sensor, parameter, periodFrom)
    }
  }

  /** The one reading of period-start strings that Python and the database share; None when invalid. */
  type Parse = string -> Option<Instant>

  /** Extracts the bronze identity fields; None stands for the ValueError (or a record that is no mapping). */
  function FromApi(sensor: int, record: Json): Option<StagedMeasurement> {
    if !record.Obj? then None
    else
      var parameter := Get(record.fields, "parameter");
      var period := Get(record.fields, "period");
      var datetimeFrom := if period.Obj? then Get(period.fields, "datetimeFrom") else Null;
      var startedAt := if datetimeFrom.Obj? then Get(datetimeFrom.fields, "utc") else Null;
      var parameterId := if parameter.Obj? then Get(parameter.fields, "id") else Null;
      if !startedAt.Str? || startedAt.s == "" || !parameterId.Int? then None
      else Some(StagedMeasurement(sensor, parameterId.i, startedAt.s, record))
  }

  /** A record becomes a staged one exactly when it has a start and a parameter, and is then kept whole. */
  lemma FromApiIs(sensor: int, record: Json, m: StagedMeasurement)
    ensures FromApi(sensor, record) == Some(m) <==>
      m.sensor == sensor && m.raw == record && Identifies(record, m.periodFrom, m.parameter)
    ensures FromApi(sensor, record).Some? <==> exists start, parameter :: Identifies(record, start, parameter)
  {
    if FromApi(sensor, record).Some? {
      var made := FromApi(sensor, record).value;
      assert Identifies(record, made.periodFrom, made.parameter);
    }
  }

  predicate Castable(parse: Parse, ms: seq<StagedMeasurement>) {
    forall i :: 0 <= i < |ms| ==> parse(ms[i].periodFrom).Some?
  }

  function Cast(parse: Parse, m: StagedMeasurement): Measurement
    requires parse(m.periodFrom).Some?
  {
    Measurement(Key(m.sensor, m.parameter, parse(m.periodFrom).value), m.raw)
  }

  /** The rows as the TIMESTAMP_TZ column of the staging table receives them. */
  function CastAll(parse: Parse, ms: seq<StagedMeasurement>): seq<Measurement>
    requires Castable(parse, ms)
  {
    seq(|ms|, i requires 0 <= i < |ms| => Cast(parse, ms[i]))
  }

  /** The cast keeps everything of a row but its start, which becomes the instant it denotes. */
  predicate CastsTo(parse: Parse, m: StagedMeasurement, x: Measurement) {
    && m.sensor == x.key.sensor && m.parameter == x.key.parameter && m.raw == x.raw
    && parse(m.periodFrom) == Some(x.key.at)
  }

  lemma CastAllIn(parse: Parse, ms: seq<StagedMeasurement>, x: Measurement)
    requires Castable(parse, ms)
    ensures x in CastAll(parse, ms) <==> exists m :: m in ms && CastsTo(parse, m, x)
  {
    if x in CastAll(parse, ms) {
      var k :| 0 <= k < |ms| && CastAll(parse, ms)[k] == x;
      assert CastsTo(parse, ms[k], x);
    }
    if m :| m in ms && CastsTo(parse, m, x) {
      var k :| 0 <= k < |ms| && ms[k] == m;
      assert CastAll(parse, ms)[k] == x;
    }
  }
}
