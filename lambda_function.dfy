/**
 * The hourly ETL loader (lambda/lambda_function.py): the partition prefix of
 * the previous hour, the S3 path the staging COPY reads, the loop that waits
 * for the submitted script to reach a terminal status, and the handler that
 * strings them together. The script's effect on the tables is module EtlScript.
 */
module LambdaFunction {
  import opened Wrappers
  import opened Decimal
  import opened Calendar

  // ---------------------------------------------------------------------------
  // Partition prefix
  // ---------------------------------------------------------------------------

  /** The hour a prefix names. */
  datatype Partition = Partition(year: int, month: int, day: int, hour: int)

  function PartitionOf(t: DateTime): Partition {
    Partition(t.year, t.month, t.day, t.hour)
  }

  /** A two-digit field as strftime's `%m`, `%d` and `%H` render it. */
  function Strftime2(n: nat): (s: string)
    requires n < 100
    ensures |s| == 2 && AllDigits(s) && DigitsValue(s) == n
  {
    var s := [DigitChar(n / 10), DigitChar(n % 10)];
    assert s[..1] == [DigitChar(n / 10)] && s[..1][..0] == [];
    assert DigitsValue(s[..1]) == n / 10;
    s
  }

  const PrefixHead: string := "medical-vitals/year="

  /** `medical-vitals/year=Y/month=MM/day=DD/hour=HH/` with the year unpadded. */
  function Prefix(t: DateTime): (p: string)
    requires Valid(t)
    ensures |p| == |PrefixHead| + |NatToString(t.year)| + 25
    ensures p[..15] == "medical-vitals/" && p[|p| - 1] == '/'
  {
    PrefixHead + NatToString(t.year) + HourFields(t.month, t.day, t.hour)
  }

  /** The part of a prefix after the year: `/month=MM/day=DD/hour=HH/`. */
  function HourFields(month: nat, day: nat, hour: nat): (f: string)
    requires month < 100 && day < 100 && hour < 100
    ensures |f| == 25 && f[..7] == "/month=" && f[9..14] == "/day=" && f[16..22] == "/hour=" && f[24] == '/'
    ensures f[7..9] == Strftime2(month) && f[14..16] == Strftime2(day) && f[22..24] == Strftime2(hour)
  {
    "/month=" + Strftime2(month) + "/day=" + Strftime2(day) + "/hour=" + Strftime2(hour) + "/"
  }

  /** The location the staging COPY reads from. */
  function S3Path(bucket: string, prefix: string): (path: string)
    ensures |path| == |bucket| + |prefix| + 6
    ensures path[..5] == "s3://" && path[5..5 + |bucket|] == bucket
    ensures path[5 + |bucket|] == '/' && path[6 + |bucket|..] == prefix
  {
    "s3://" + bucket + "/" + prefix
  }

  /** Number of leading decimal digits of `s`. */
  function DigitRun(s: string): (k: nat)
    ensures k <= |s| && AllDigits(s[..k])
    ensures k < |s| ==> !IsDigit(s[k])
  {
    if s == [] || !IsDigit(s[0]) then 0
    else
      var k := 1 + DigitRun(s[1..]);
      assert s[..k] == [s[0]] + s[1..][..k - 1];
      k
  }

  /**
   * Reads a prefix back into the hour it names: the head, a run of year
   * digits, then the three two-digit labelled fields and the closing '/'.
   */
  function ParsePrefix(s: string): Option<Partition> {
    if |s| < |PrefixHead| || s[..|PrefixHead|] != PrefixHead then None
    else
      var rest := s[|PrefixHead|..];
      var k := DigitRun(rest);
      var tail := rest[k..];
      if k == 0 || |tail| != 25 then None
      else if tail[..7] != "/month=" || tail[9..14] != "/day=" || tail[16..22] != "/hour=" || tail[24] != '/' then None
      else if !AllDigits(tail[7..9]) || !AllDigits(tail[14..16]) || !AllDigits(tail[22..24]) then None
      else Some(Partition(DigitsValue(rest[..k]), DigitsValue(tail[7..9]),
                          DigitsValue(tail[14..16]), DigitsValue(tail[22..24])))
  }

  /**
   * The prefix names exactly the instant's hour: it starts with
   * `medical-vitals/`, ends with `/`, and parses back into year, month, day
   * and hour in that order.
   */
  lemma PrefixRoundTrip(t: DateTime)
    requires Valid(t)
    ensures var p := Prefix(t); p[..15] == "medical-vitals/" && p[|p| - 1] == '/'
    ensures ParsePrefix(Prefix(t)) == Some(PartitionOf(t))
  {
    var year := NatToString(t.year);
    var tail := HourFields(t.month, t.day, t.hour);
    var p := Prefix(t);
    assert p[..|PrefixHead|] == PrefixHead;
    var rest := p[|PrefixHead|..];
    assert rest == year + tail;
    assert rest[..|year|] == year;
    DigitRunStopsAt(year, tail);
    assert rest[|year|..] == tail;
    NatToStringRoundTrip(t.year);
  }

  lemma {:induction false} DigitRunStopsAt(digits: string, tail: string)
    requires AllDigits(digits)
    requires tail != [] && !IsDigit(tail[0])
    ensures DigitRun(digits + tail) == |digits|
  {
    if digits != [] {
      assert (digits + tail)[1..] == digits[1..] + tail;
      DigitRunStopsAt(digits[1..], tail);
    }
  }

  /** Different hours get different prefixes, so each prefix names one partition. */
  lemma PrefixInjective(a: DateTime, b: DateTime)
    requires Valid(a) && Valid(b)
    requires Prefix(a) == Prefix(b)
    ensures PartitionOf(a) == PartitionOf(b)
  {
    PrefixRoundTrip(a);
    PrefixRoundTrip(b);
  }

  // ---------------------------------------------------------------------------
  // execute_and_wait
  // ---------------------------------------------------------------------------

  /** What `execute_statement` gives back: a statement id, or the exception it raises. */
  datatype Submission = Accepted(queryId: string) | Rejected(error: string)

  /**
   * One `describe_statement` call: the answer's `Status` and, possibly, its
   * `Error`; or the exception the call itself raises.
   */
  datatype StatusResponse =
    | StatusResponse(status: string, error: Option<string>)
    | DescribeRaised(message: string)

  /**
   * How the wait ends: the id is returned, an exception is raised with a
   * message, or, after the given responses, the loop is still polling.
   */
  datatype WaitOutcome = Returned(queryId: string) | Raised(message: string) | StillPolling

  predicate IsTerminal(status: string) {
    status == "FINISHED" || status == "FAILED" || status == "ABORTED"
  }

  /** A response after which the loop does not poll again. */
  predicate EndsWait(r: StatusResponse) {
    r.DescribeRaised? || IsTerminal(r.status)
  }

  /** The outcome a response that ends the wait leads to. */
  function Settle(description: string, queryId: string, r: StatusResponse): WaitOutcome
    requires EndsWait(r)
  {
    if r.DescribeRaised? then Raised(r.message)
    else if r.status == "FINISHED" then Returned(queryId)
    else if r.status == "FAILED" then Raised(description + " failed: " + r.error.GetOr("Unknown error"))
    else Raised(description + " was aborted")
  }

  /** Position of the first response that ends the wait, if any. */
  function FirstTerminal(rs: seq<StatusResponse>): (k: Option<nat>)
    ensures k.Some? ==> k.value < |rs| && EndsWait(rs[k.value])
    ensures k.Some? ==> forall j :: 0 <= j < k.value ==> !EndsWait(rs[j])
    ensures k.None? ==> forall j :: 0 <= j < |rs| ==> !EndsWait(rs[j])
  {
    if rs == [] then None
    else if EndsWait(rs[0]) then Some(0)
    else match FirstTerminal(rs[1..])
      case None => None
      case Some(k) => Some(k + 1)
  }

  /** What `execute_and_wait` ends with when the statuses reported are `rs`, in order. */
  function WaitOutcomeOf(description: string, submission: Submission, rs: seq<StatusResponse>): (r: WaitOutcome)
    ensures submission.Rejected? ==> r == Raised(submission.error)
    ensures r.Returned? ==> submission.Accepted? && r.queryId == submission.queryId
    ensures r.Returned? ==> exists k :: 0 <= k < |rs| && rs[k].StatusResponse? && rs[k].status == "FINISHED"
  {
    match submission
    case Rejected(e) => Raised(e)
    case Accepted(id) =>
      match FirstTerminal(rs)
      case None => StillPolling
      case Some(k) => Settle(description, id, rs[k])
  }

  /** How many times `describe_statement` is called. */
  function PollCount(submission: Submission, rs: seq<StatusResponse>): nat {
    if submission.Rejected? then 0
    else match FirstTerminal(rs)
      case None => |rs|
      case Some(k) => k + 1
  }

  /**
   * Submits once, then polls: `FINISHED` returns the id, `FAILED` raises
   * with the error text, `ABORTED` raises, any other status polls again; a
   * `describe_statement` call that raises ends the wait with its exception.
   * The answers the service gives are the sequence `rs`; the two-second
   * sleep between polls is left out.
   */
  method ExecuteAndWait(description: string, submission: Submission, rs: seq<StatusResponse>)
    returns (outcome: WaitOutcome, polls: nat)
    ensures outcome == WaitOutcomeOf(description, submission, rs)
    ensures polls == PollCount(submission, rs)
  {
    match submission
    case Rejected(e) =>
      return Raised(e), 0;
    case Accepted(id) =>
      var i := 0;
      while i < |rs|
        invariant 0 <= i <= |rs|
        invariant forall j :: 0 <= j < i ==> !EndsWait(rs[j])
      {
        if rs[i].DescribeRaised? {
          return Raised(rs[i].message), i + 1;
        }
        var status := rs[i].status;
        if status == "FINISHED" {
          return Returned(id), i + 1;
        } else if status == "FAILED" {
          var error := rs[i].error.GetOr("Unknown error");
          return Raised(description + " failed: " + error), i + 1;
        } else if status == "ABORTED" {
          return Raised(description + " was aborted"), i + 1;
        }
        i := i + 1;
      }
      return StillPolling, |rs|;
  }

  /** The first response that ends the wait is at position `k`. */
  predicate FirstTerminalAt(rs: seq<StatusResponse>, k: int) {
    0 <= k < |rs| && EndsWait(rs[k]) && forall j :: 0 <= j < k ==> !EndsWait(rs[j])
  }

  /**
   * The wait returns the id exactly when the first terminal status is
   * FINISHED; it raises "<description> failed: <error>" (the error defaulting
   * to 'Unknown error') when it is FAILED and "<description> was aborted" when
   * it is ABORTED; a status call that raises passes its exception on; it
   * keeps polling while no response ends the wait, and every other response
   * is followed by another poll.
   */
  lemma WaitOutcomeCases(description: string, id: string, rs: seq<StatusResponse>, k: int)
    ensures (WaitOutcomeOf(description, Accepted(id), rs) == StillPolling)
              <==> (forall j :: 0 <= j < |rs| ==> !EndsWait(rs[j]))
    ensures FirstTerminalAt(rs, k) ==>
              && PollCount(Accepted(id), rs) == k + 1
              && ((WaitOutcomeOf(description, Accepted(id), rs) == Returned(id))
                    <==> (rs[k].StatusResponse? && rs[k].status == "FINISHED"))
              && (rs[k].StatusResponse? && rs[k].status == "FAILED" ==>
                    WaitOutcomeOf(description, Accepted(id), rs)
                      == Raised(description + " failed: " + rs[k].error.GetOr("Unknown error")))
              && (rs[k].StatusResponse? && rs[k].status == "ABORTED" ==>
                    WaitOutcomeOf(description, Accepted(id), rs) == Raised(description + " was aborted"))
              && (rs[k].DescribeRaised? ==>
                    WaitOutcomeOf(description, Accepted(id), rs) == Raised(rs[k].message))
  {
    if FirstTerminalAt(rs, k) {
      match FirstTerminal(rs)
      case None =>
      case Some(f) =>
        assert !(f < k) && !(k < f);
    }
  }

  /** Responses after the first terminal one are never read. */
  lemma WaitIgnoresLaterResponses(description: string, submission: Submission, rs: seq<StatusResponse>, more: seq<StatusResponse>)
    requires FirstTerminal(rs).Some?
    ensures WaitOutcomeOf(description, submission, rs + more) == WaitOutcomeOf(description, submission, rs)
    ensures PollCount(submission, rs + more) == PollCount(submission, rs)
  {
    var k := FirstTerminal(rs).value;
    assert (rs + more)[k] == rs[k];
    WaitOutcomeCases(description, "", rs + more, k);
    match FirstTerminal(rs + more)
    case None =>
    case Some(f) =>
      assert !(f < k) && !(k < f);
  }

  // ---------------------------------------------------------------------------
  // lambda_handler
  // ---------------------------------------------------------------------------

  const Description: string := "Complete ETL process"

  /** The handler's result dictionary `{"status": ..., "prefix": ...}`, or the exception it raises. */
  datatype HandlerOutcome = Succeeded(status: string, prefix: string) | Failed(message: string) | StillWaiting

  /**
   * Loads the previous hour's partition: computes its prefix and S3 path,
   * submits the script and waits for it. `now` stands for `datetime.utcnow()`;
   * `submission` and `rs` are what the Data API answers. `copySource` is the
   * path the script's COPY reads, when the script is built.
   */
  method LambdaHandler(now: DateTime, bucket: string, submission: Submission, rs: seq<StatusResponse>)
    returns (r: HandlerOutcome, copySource: Option<string>)
    requires Valid(now)
    ensures PrevHour(now).None? ==> r == Failed("date value out of range") && copySource == None
    ensures PrevHour(now).Some? ==>
              var prefix := Prefix(PrevHour(now).value);
              && copySource == Some(S3Path(bucket, prefix))
              && r == match WaitOutcomeOf(Description, submission, rs)
                      case Returned(_) => Succeeded("SUCCESS", prefix)
                      case Raised(m) => Failed(m)
                      case StillPolling => StillWaiting
  {
    var prev := PrevHour(now);
    if prev.None? {
      return Failed("date value out of range"), None;
    }
    var prefix := Prefix(prev.value);
    var s3Path := S3Path(bucket, prefix);
    copySource := Some(s3Path);
    var outcome, _ := ExecuteAndWait(Description, submission, rs);
    match outcome
    case Returned(_) => r := Succeeded("SUCCESS", prefix);
    case Raised(m) => r := Failed(m);
    case StillPolling => r := StillWaiting;
  }
}
