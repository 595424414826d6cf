// What the API's records say, field by field; the rest of the project reads them as the Python code does.
module ApiRecords {
  import opened Json

  /** The values Python takes for false. */
  const FALSY := {Null, Bool(false), Int(0), Float(0.0), Str(""), Arr([]), Obj(map[])}

  lemma TruthyIff(v: Json)
    ensures Truthy(v) <==> v !in FALSY
  {
  }

  /** A value that is neither an object nor false, so that reading a field from it fails. */
  predicate NotMapping(v: Json) {
    !v.Obj? && v !in FALSY
  }

  predicate Field(v: Json, name: string, x: Json) {
    v.Obj? && name in v.fields && v.fields[name] == x
  }

  predicate HasStart(record: Json, start: Json) {
    && record.Obj? && "period" in record.fields
    && var period := record.fields["period"];
       && period.Obj? && "datetimeFrom" in period.fields
       && Field(period.fields["datetimeFrom"], "utc", start)
  }

  predicate HasParameter(record: Json, id: Json) {
    record.Obj? && "parameter" in record.fields && Field(record.fields["parameter"], "id", id)
  }

  /** A measurement record with a usable identity: a non-empty start and an integer parameter. */
  predicate Identifies(record: Json, start: string, parameter: int) {
    HasStart(record, Str(start)) && start != "" && HasParameter(record, Int(parameter))
  }

  predicate FromProvider(location: Json, id: Json) {
    location.Obj? && "provider" in location.fields && Field(location.fields["provider"], "id", id)
  }

  predicate Offers(location: Json, sensor: Json) {
    && location.Obj? && "sensors" in location.fields
    && location.fields["sensors"].Arr? && sensor in location.fields["sensors"].items
  }

  predicate Measures(sensor: Json, name: string) {
    sensor.Obj? && "parameter" in sensor.fields && Field(sensor.fields["parameter"], "name", Str(name))
  }

  /** Two letters that differ at most in ASCII case. */
  predicate SameLetter(c: char, d: char) {
    c == d || ('A' <= c <= 'Z' && d as int == c as int + 32) || ('A' <= d <= 'Z' && c as int == d as int + 32)
  }

  predicate SameName(a: string, b: string) {
    |a| == |b| && forall i :: 0 <= i < |a| ==> SameLetter(a[i], b[i])
  }
}
