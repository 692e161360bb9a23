/**
 * The incremental COPY loader (lambda/lambda.py): it builds the previous
 * hour's prefix with `{:02d}` formatting, submits a COPY of that prefix into
 * `fact_vitals`, and answers 200 with the query id or 500 with the error.
 */
module CopyLoader {
  import opened Wrappers
  import opened Decimal
  import opened Calendar
  import LambdaFunction
  import EtlScript

  /** Python's `format(n, '02d')` for a non-negative number: zero-filled to at least two characters. */
  function Pad2(n: nat): string {
    var digits := NatToString(n);
    if |digits| < 2 then "0" + digits else digits
  }

  /**
   * `medical-vitals/year={year}/month={month:02d}/day={day:02d}/hour={hour:02d}/`:
   * character for character the prefix the ETL loader builds with strftime.
   */
  function CopyPrefix(t: DateTime): (p: string)
    requires Valid(t)
    ensures p == LambdaFunction.Prefix(t)
  {
    Pad2MatchesStrftime(t.month);
    Pad2MatchesStrftime(t.day);
    Pad2MatchesStrftime(t.hour);
    "medical-vitals/year=" + NatToString(t.year)
      + "/month=" + Pad2(t.month)
      + "/day=" + Pad2(t.day)
      + "/hour=" + Pad2(t.hour) + "/"
  }

  /** For every value strftime can print in two digits, `{:02d}` prints the same two characters. */
  lemma Pad2MatchesStrftime(n: nat)
    requires n < 100
    ensures Pad2(n) == LambdaFunction.Strftime2(n)
  {
    if n >= 10 {
      assert NatToString(n) == NatToString(n / 10) + [DigitChar(n % 10)];
    }
  }

  /** The target column list of the COPY statement. */
  const CopyColumns: seq<string> := [
    "patient_id", "patient_name", "age", "gender",
    "hospital_id", "hospital_name", "room_number",
    "device_id", "device_type", "department",
    "heart_rate", "spo2", "bp_sys", "bp_dia", "temp",
    "resp_rate", "blood_sugar", "oxygen_flow_rate", "ecg_lead_ii",
    "timestamp", "event_type", "alert_flag", "ingestion_time"]

  /** The COPY names the 23 staging columns, in the staging table's order, each once. */
  lemma CopyColumnsMatchStaging()
    ensures CopyColumns == EtlScript.StagingColumns
    ensures |CopyColumns| == 23
    ensures forall i, j :: 0 <= i < j < |CopyColumns| ==> CopyColumns[i] != CopyColumns[j]
  {
  }

  /** The JSON body of the handler's response. */
  datatype Body =
    | Submitted(message: string, queryId: string, s3Path: string)
    | ErrorBody(error: string)

  /** The handler's result: a response dictionary, or an exception that escapes it. */
  datatype HandlerResult =
    | Response(statusCode: int, body: Body)
    | Raised(message: string)

  /** Where the COPY reads from: `s3://{S3_BUCKET}/{s3_prefix}`. */
  function CopySource(bucket: string, t: DateTime): (path: string)
    requires Valid(t)
    ensures path == LambdaFunction.S3Path(bucket, LambdaFunction.Prefix(t))
  {
    LambdaFunction.S3Path(bucket, CopyPrefix(t))
  }

  /**
   * `lambda_handler`: `now` stands for `datetime.utcnow()` and `submission`
   * for what `execute_statement` does with the COPY. The previous-hour
   * computation sits outside the `try`, so its OverflowError escapes; a
   * submission error is caught and becomes a 500 response. The second
   * component is the FROM location of the COPY submitted, when one is built.
   */
  function LambdaHandler(now: DateTime, bucket: string, submission: LambdaFunction.Submission)
    : (out: (HandlerResult, Option<string>))
    requires Valid(now)
    ensures PrevHour(now).None? <==> out.0.Raised?
    ensures PrevHour(now).None? ==> out.1.None?
    ensures PrevHour(now).Some? ==>
              out.1 == Some(LambdaFunction.S3Path(bucket, LambdaFunction.Prefix(PrevHour(now).value)))
    ensures out.0.Response? ==> (out.0.statusCode == 200 <==> submission.Accepted?)
    ensures out.0.Response? ==> (out.0.statusCode == 500 <==> submission.Rejected?)
    ensures out.0.Response? && submission.Accepted? ==>
              out.0.body == Submitted("COPY command submitted", submission.queryId,
                                      LambdaFunction.Prefix(PrevHour(now).value))
    ensures out.0.Response? && submission.Rejected? ==> out.0.body == ErrorBody(submission.error)
  {
    match PrevHour(now)
    case None => (Raised("date value out of range"), None)
    case Some(prev) =>
      var from := Some(CopySource(bucket, prev));
      match submission
      case Accepted(id) => (Response(200, Submitted("COPY command submitted", id, CopyPrefix(prev))), from)
      case Rejected(e) => (Response(500, ErrorBody(e)), from)
  }
}
