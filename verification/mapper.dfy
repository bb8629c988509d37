/** mapper.rs: turning the optional fields of a log service record into required values. */
module Mapper {
  import opened Wrappers
  import opened Ints

  /** `MissingFieldError` of aws/errors.rs: names the absent field. */
  datatype MissingFieldError = MissingFieldError(fieldName: string)

  /** A UTC instant, as milliseconds since the Unix epoch. */
  datatype Timestamp = Timestamp(millis: int)

  /** `std::time::Duration`, in whole seconds. */
  datatype Duration = Duration(secs: nat)

  /** `DurationDays`: a day count as the service reports it. */
  datatype DurationDays = DurationDays(days: I64)

  const SECS_PER_DAY: nat := 24 * 60 * 60

  /** `map_field`: a present field is its value; an absent one is an error naming it. */
  function MapField<T>(field: Option<T>, name: string): (r: Result<T, MissingFieldError>)
    ensures r.Ok? <==> field.Some?
    ensures r.Ok? ==> r.value == field.value
    ensures r.Err? ==> r.error.fieldName == name
  {
    match field
    case Some(f) => Ok(f)
    case None => Err(MissingFieldError(name))
  }

  /** `map_string_field`: `map_field` followed by the conversion `from` out of a string. */
  function MapStringField<T>(field: Option<string>, name: string, from: string -> T): Result<T, MissingFieldError> {
    var s :- MapField(field, name);
    Ok(from(s))
  }

  /** `map_unix_epoch_millis`: a present millisecond count is the instant that long after the epoch. */
  function MapUnixEpochMillis(field: Option<I64>, name: string): Result<Timestamp, MissingFieldError> {
    var ms :- MapField(field, name);
    Ok(Timestamp(ms as int))
  }

  /** `DurationDays::as_duration`: the day count cast to `u64` and multiplied by the seconds in a day,
      in `u64` arithmetic with wrap-around. */
  function AsDuration(d: DurationDays): (r: Duration)
    ensures r.secs < U64_LIMIT
    ensures 0 <= d.days as int && d.days as int * SECS_PER_DAY < U64_LIMIT ==> r.secs == d.days as int * SECS_PER_DAY
  {
    Duration(((d.days as int % U64_LIMIT) * SECS_PER_DAY) % U64_LIMIT)
  }

  /** `map_field` keeps exactly what it is given: reading the result back as an option returns the
      input, and the error names the field asked for. */
  lemma MapFieldInverse<T>(field: Option<T>, name: string)
    ensures (match MapField(field, name) case Ok(v) => Some(v) case Err(_) => None) == field
    ensures MapField(field, name).Err? ==> MapField(field, name).error == MissingFieldError(name)
  {
  }

  /** `map_string_field` is `map_field` with the conversion applied to the value, and the same error. */
  lemma MapStringFieldIsMapField<T>(field: Option<string>, name: string, from: string -> T)
    ensures MapStringField(field, name, from).Ok? <==> field.Some?
    ensures field.Some? ==> MapStringField(field, name, from) == Ok(from(field.value))
    ensures field.None? ==> MapStringField(field, name, from) == Err(MissingFieldError(name))
  {
  }

  /** A present millisecond count is kept exactly; an absent one is reported under its name. */
  lemma MapUnixEpochMillisSpec(field: Option<I64>, name: string)
    ensures field.Some? ==> MapUnixEpochMillis(field, name) == Ok(Timestamp(field.value as int))
    ensures field.None? ==> MapUnixEpochMillis(field, name) == Err(MissingFieldError(name))
  {
  }

  /** One day is 86400 seconds. */
  lemma OneDay()
    ensures AsDuration(DurationDays(1)) == Duration(86_400)
  {
  }

  /** The first field, in check order, that is absent: the error a chain of `?` reports. */
  function FirstMissing(present: seq<(string, bool)>): Option<string>
    decreases |present|
  {
    if |present| == 0 then None
    else if !present[0].1 then Some(present[0].0)
    else FirstMissing(present[1..])
  }

  /** `FirstMissing` names the field at the first absent position, and is `None` when all are present. */
  lemma {:induction false} FirstMissingSpec(present: seq<(string, bool)>)
    ensures FirstMissing(present).None? <==> forall i :: 0 <= i < |present| ==> present[i].1
    ensures FirstMissing(present).Some? ==>
              exists i :: 0 <= i < |present| && !present[i].1 && present[i].0 == FirstMissing(present).value
                          && forall j :: 0 <= j < i ==> present[j].1
    decreases |present|
  {
    if |present| > 0 {
      if !present[0].1 {
        assert !present[0].1 && present[0].0 == FirstMissing(present).value;
      } else {
        FirstMissingSpec(present[1..]);
        if FirstMissing(present).Some? {
          var i :| 0 <= i < |present[1..]| && !present[1..][i].1 && present[1..][i].0 == FirstMissing(present).value
                   && forall j :: 0 <= j < i ==> present[1..][j].1;
          assert forall j :: 0 <= j < i + 1 ==> present[j].1 by {
            forall j | 0 <= j < i + 1 ensures present[j].1 {
              if j > 0 {
                assert present[j] == present[1..][j - 1];
              }
            }
          }
          assert !present[i + 1].1 && present[i + 1].0 == FirstMissing(present).value;
        } else {
          forall i | 0 <= i < |present| ensures present[i].1 {
            if i > 0 {
              assert present[i] == present[1..][i - 1];
            }
          }
        }
      }
    }
  }
}
