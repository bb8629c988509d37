/** group/model.rs: a log group as the service reports it, and its validated form `CwlGroup`. */
module GroupModel {
  import opened Wrappers
  import opened Ints
  import opened Mapper
  import opened Ordering
  import Size
  import Store

  /** The fields of the service's `LogGroup` record that the conversion reads. */
  datatype LogGroup = LogGroup(
    arn: Option<string>,
    creationTime: Option<I64>,
    logGroupName: Option<string>,
    retentionInDays: Option<I64>,
    storedBytes: Option<I64>)

  /** A validated log group. Its identity is its ARN. */
  datatype CwlGroup = CwlGroup(
    arn: string,
    creationTime: Timestamp,
    groupName: string,
    retention: Option<Duration>,
    stored: Size.Size)

  datatype ParseLogGroupError =
    | MissingField(missing: MissingFieldError)
    | WrongSize(sizeError: Size.SizeError)

  /** The optional retention, converted from days when present. */
  function Retention(days: Option<I64>): Option<Duration> {
    match days
    case None => None
    case Some(d) => Some(AsDuration(DurationDays(d)))
  }

  /** `CwlGroup::try_from(LogGroup)`: required fields in the order arn, creation_time, log_group_name,
      stored_bytes, the first absent one being the error; then the byte count must not be negative. */
  function TryFrom(g: LogGroup): Result<CwlGroup, ParseLogGroupError>
  {
    var arn :- MapStringField(g.arn, "arn", (s: string) => s).MapFailure(e => MissingField(e));
    var creationTime :- MapUnixEpochMillis(g.creationTime, "creation_time").MapFailure(e => MissingField(e));
    var groupName :- MapField(g.logGroupName, "log_group_name").MapFailure(e => MissingField(e));
    var retention := Retention(g.retentionInDays);
    var bytes :- MapField(g.storedBytes, "stored_bytes").MapFailure(e => MissingField(e));
    var stored :- Size.SizeFromI64(bytes).MapFailure(e => WrongSize(e));
    Ok(CwlGroup(arn, creationTime, groupName, retention, stored))
  }

  /** Which required fields are present, in the order the conversion checks them. */
  function Required(g: LogGroup): seq<(string, bool)> {
    [("arn", g.arn.Some?), ("creation_time", g.creationTime.Some?),
     ("log_group_name", g.logGroupName.Some?), ("stored_bytes", g.storedBytes.Some?)]
  }

  /** The conversion reports the first absent required field; with all present it fails only on a negative
      byte count; and on success it copies every field, the retention as that many days of seconds. */
  lemma TryFromSpec(g: LogGroup)
    ensures FirstMissing(Required(g)).Some? ==>
              TryFrom(g) == Err(MissingField(MissingFieldError(FirstMissing(Required(g)).value)))
    ensures FirstMissing(Required(g)).None? ==>
              g.storedBytes.Some? && (TryFrom(g).Err? <==> g.storedBytes.value < 0)
              && (TryFrom(g).Err? ==> TryFrom(g).error == WrongSize(Size.Negative))
    ensures TryFrom(g).Ok? ==>
              var r := TryFrom(g).value;
              && g.arn == Some(r.arn)
              && g.creationTime.Some? && r.creationTime.millis == g.creationTime.value as int
              && g.logGroupName == Some(r.groupName)
              && (r.retention.None? <==> g.retentionInDays.None?)
              && (r.retention.Some? ==> r.retention.value == AsDuration(DurationDays(g.retentionInDays.value)))
              && g.storedBytes.Some? && r.stored.inBytes as int == g.storedBytes.value as int
  {
    var req := Required(g);
    assert req[1..] == [req[1], req[2], req[3]] && req[1..][1..] == [req[2], req[3]];
    assert req[1..][1..][1..] == [req[3]] && req[1..][1..][1..][1..] == [];
    if g.arn.None? {
      assert FirstMissing(req) == Some("arn");
      assert TryFrom(g) == Err(MissingField(MissingFieldError("arn")));
    } else if g.creationTime.None? {
      assert FirstMissing(req) == Some("creation_time");
      assert TryFrom(g) == Err(MissingField(MissingFieldError("creation_time")));
    } else if g.logGroupName.None? {
      assert FirstMissing(req) == FirstMissing(req[1..]) == FirstMissing(req[1..][1..]);
    } else if g.storedBytes.None? {
      assert FirstMissing(req) == FirstMissing(req[1..]) == FirstMissing(req[1..][1..]);
      assert FirstMissing(req[1..][1..]) == FirstMissing(req[1..][1..][1..]);
    } else {
      assert FirstMissing(req) == FirstMissing(req[1..]) == FirstMissing(req[1..][1..]);
      assert FirstMissing(req[1..][1..]) == FirstMissing(req[1..][1..][1..]) == None;
      var _ := Size.SizeFromI64(g.storedBytes.value);
    }
  }

  /** The success case of the conversion's tests. */
  lemma TryFromExample()
    ensures TryFrom(LogGroup(Some("arn:aws:logs:ap-northeast-1:000000000000:log-group:log_group_name"),
                             Some(1604316153000), Some("log_group_name"), Some(3), Some(256 * 1024)))
         == Ok(CwlGroup("arn:aws:logs:ap-northeast-1:000000000000:log-group:log_group_name",
                        Timestamp(1604316153000), "log_group_name", Some(Duration(259_200)),
                        Size.Size(262_144)))
  {
  }

  /** `Ord for CwlGroup`: groups compare by ARN alone. */
  function GroupOrder(): Store.Order<CwlGroup, string> {
    Store.Order((g: CwlGroup) => g.arn, StrLt)
  }

  /** The ARN order is a strict total order, as `Ord` requires. */
  lemma GroupOrderLawful()
    ensures Store.Lawful(GroupOrder())
  {
    StrLtStrictTotal();
  }
}
