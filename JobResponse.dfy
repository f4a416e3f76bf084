/** Interpreting the bodies the remote service sends back: the status
    record of a poll (`parseJobResponse`), the job id of a submission, and
    the progress shown while a job is still running. */
module JobResponse {
  import opened Values

  /** Why parseJobResponse throws: the body is neither an array nor an
      object; the record lacks a truthy status; or the first array element
      is null, so reading its status is itself a TypeError. */
  datatype ParseError = InvalidFormat | MissingStatus | NullRecord

  datatype Parsed =
    | NoJobYet                               // `[]`: returns null
    | Job(record: map<string, Json>)         // the status record
    | ParseFailed(error: ParseError)         // throws

  /** An object whose status field is truthy. */
  predicate StatusRecord(v: Json)
  {
    v.JObj? && "status" in v.fields && Truthy(v.fields["status"])
  }

  /** `parseJobResponse(data)`. */
  function ParseJobResponse(data: Json): (r: Parsed)
    ensures r.NoJobYet? <==> data == JArr([])
    ensures r.Job? <==>
      StatusRecord(data) || (data.JArr? && |data.items| > 0 && StatusRecord(data.items[0]))
    ensures r.Job? ==> JObj(r.record) == (if data.JObj? then data else data.items[0])
    ensures r.Job? ==> "status" in r.record && Truthy(r.record["status"])
    ensures r.ParseFailed? && r.error == InvalidFormat <==> !data.JArr? && !data.JObj?
  {
    var jobData :=
      match data
      case JArr(items) => if |items| == 0 then None else Some(items[0])
      case JObj(_) => Some(data)
      case _ => None;
    if data == JArr([]) then NoJobYet
    else if jobData.None? then ParseFailed(InvalidFormat)
    else match Get(jobData.value, "status")
      case TypeError => ParseFailed(NullRecord)
      case Value(st) => if Truthy(st) then Job(jobData.value.fields) else ParseFailed(MissingStatus)
      case Undefined => ParseFailed(MissingStatus)
  }

  /** The four shapes: `[]` gives null, a non-empty array its first element
      (when that is a record with a status), an object with a status itself,
      and every other value throws. */
  lemma ParseJobResponseCases(data: Json)
    ensures data == JArr([]) ==> ParseJobResponse(data) == NoJobYet
    ensures data.JObj? && "status" in data.fields && Truthy(data.fields["status"])
      ==> ParseJobResponse(data) == Job(data.fields)
    ensures data.JArr? && |data.items| > 0 && data.items[0].JObj?
      && "status" in data.items[0].fields && Truthy(data.items[0].fields["status"])
      ==> ParseJobResponse(data) == Job(data.items[0].fields)
    ensures (data.JObj? && ("status" !in data.fields || !Truthy(data.fields["status"])))
      ==> ParseJobResponse(data) == ParseFailed(MissingStatus)
    ensures (data.JNull? || data.JBool? || data.JNum? || data.JStr?)
      ==> ParseJobResponse(data) == ParseFailed(InvalidFormat)
  {
  }

  /** Why no job id could be obtained from a submission response. */
  datatype JobIdError = NoJobId | ResponseIsNull

  datatype JobIdResult = JobId(id: Json) | JobIdFailed(error: JobIdError)

  /** `data.jobId || data.job_id`, failing when the result is falsy. */
  function ExtractJobId(data: Json): (r: JobIdResult)
    ensures r.JobIdFailed? && r.error == ResponseIsNull <==> data.JNull?
    ensures r.JobId? ==> Truthy(r.id)
    ensures r.JobId? <==>
      data.JObj? && (("jobId" in data.fields && Truthy(data.fields["jobId"]))
                     || ("job_id" in data.fields && Truthy(data.fields["job_id"])))
    ensures data.JObj? && "jobId" in data.fields && Truthy(data.fields["jobId"])
      ==> r == JobId(data.fields["jobId"])
    ensures data.JObj? && ("jobId" !in data.fields || !Truthy(data.fields["jobId"]))
      && "job_id" in data.fields && Truthy(data.fields["job_id"])
      ==> r == JobId(data.fields["job_id"])
  {
    match Get(data, "jobId")
    case TypeError => JobIdFailed(ResponseIsNull)
    case Value(v) =>
      if Truthy(v) then JobId(v)
      else (match Get(data, "job_id")
            case Value(w) => if Truthy(w) then JobId(w) else JobIdFailed(NoJobId)
            case _ => JobIdFailed(NoJobId))
    case Undefined =>
      match Get(data, "job_id")
      case Value(w) => if Truthy(w) then JobId(w) else JobIdFailed(NoJobId)
      case _ => JobIdFailed(NoJobId)
  }

  /** Either field name yields the same handle. */
  lemma JobIdFieldTolerance(id: string)
    requires id != ""
    ensures ExtractJobId(JObj(map["jobId" := JStr(id)])) == JobId(JStr(id))
    ensures ExtractJobId(JObj(map["job_id" := JStr(id)])) == JobId(JStr(id))
  {
  }

  /** `Math.min(Math.max(progress, 0), 100)` for an integer progress. */
  function ClampProgress(p: int): (r: int)
    ensures 0 <= r <= 100
    ensures 0 <= p <= 100 ==> r == p
    ensures p > 100 ==> r == 100
    ensures p < 0 ==> r == 0
  {
    var lower := if p > 0 then p else 0;
    if lower < 100 then lower else 100
  }

  const MAX_POLL_ATTEMPTS: int := 60

  /** `Math.min((pollAttempts / MAX_POLL_ATTEMPTS) * 90, 90)`. */
  function EstimatedProgress(attempts: int): (r: real)
    requires attempts >= 0
    ensures 0.0 <= r <= 90.0
    ensures attempts < MAX_POLL_ATTEMPTS ==> r < 90.0
    ensures attempts <= MAX_POLL_ATTEMPTS ==> r == attempts as real * 1.5
  {
    var e := (attempts as real / MAX_POLL_ATTEMPTS as real) * 90.0;
    if e < 90.0 then e else 90.0
  }

  /** What a non-terminal cycle shows: a clamped reported figure, an
      estimate from the attempt count when the record has no progress field,
      or nothing usable when the field is present but not a number. */
  datatype Progress = Reported(percent: int) | Estimated(estimate: real) | Unreadable

  /** The first decimal digit of a positive number. */
  function LeadingDigit(m: nat): (r: nat)
    ensures m > 0 ==> 1 <= r <= 9
    ensures m < 10 ==> r == m
  {
    if m < 10 then m else LeadingDigit(m / 10)
  }

  function PowerOfTen(k: nat): (r: nat)
    ensures r >= 1
  {
    if k == 0 then 1 else 10 * PowerOfTen(k - 1)
  }

  lemma {:induction false} PowerOfTenLeadingDigit(k: nat)
    ensures LeadingDigit(PowerOfTen(k)) == 1
  {
    if k > 0 {
      PowerOfTenLeadingDigit(k - 1);
      assert PowerOfTen(k) / 10 == PowerOfTen(k - 1);
    }
  }

  /** From 10^21 on, `String(n)` writes a number in exponent form
      ("1.5e+21"). */
  const EXPONENT_FORM: int := PowerOfTen(21)

  /** `parseInt(n)` for an integer n: parseInt reads the decimal text of n
      and stops at the first character that is not a digit, so in exponent
      form only the leading digit is left. */
  function ParseIntOfNumber(n: int): (r: int)
    ensures -EXPONENT_FORM < n < EXPONENT_FORM ==> r == n
    ensures n >= EXPONENT_FORM ==> r == LeadingDigit(n) && 1 <= r <= 9
    ensures n <= -EXPONENT_FORM ==> r == -(LeadingDigit(-n) as int) && -9 <= r <= -1
  {
    if n >= EXPONENT_FORM then LeadingDigit(n)
    else if n <= -EXPONENT_FORM then -(LeadingDigit(-n) as int)
    else n
  }

  function ProgressOf(record: map<string, Json>, attempts: int): (r: Progress)
    requires attempts >= 0
    ensures "progress" !in record ==> r == Estimated(EstimatedProgress(attempts))
    ensures "progress" in record && record["progress"].JNum?
      ==> r == Reported(ClampProgress(ParseIntOfNumber(record["progress"].n)))
    ensures "progress" in record && !record["progress"].JNum? ==> r == Unreadable
    ensures r.Reported? ==> 0 <= r.percent <= 100
    ensures r.Estimated? ==> 0.0 <= r.estimate <= 90.0
  {
    if "progress" !in record then Estimated(EstimatedProgress(attempts))
    else match record["progress"]
      case JNum(n) => Reported(ClampProgress(ParseIntOfNumber(n)))
      case _ => Unreadable
  }

  /** A figure below 10^21 is shown clamped; a larger one shows only its
      leading digit, so 10^21 percent is shown as 1 percent; a negative one
      is shown as 0. */
  lemma ReportedProgress(n: int, attempts: nat)
    ensures var r := ProgressOf(map["progress" := JNum(n)], attempts);
      && (n < EXPONENT_FORM ==> r == Reported(ClampProgress(n)))
      && (n >= EXPONENT_FORM ==> r.Reported? && 1 <= r.percent <= 9)
      && (n < 0 ==> r == Reported(0))
  {
  }

  /** A job reporting 10^21 percent is shown at 1 percent. */
  lemma ExponentFormProgress(attempts: nat)
    ensures ProgressOf(map["progress" := JNum(EXPONENT_FORM)], attempts) == Reported(1)
  {
    PowerOfTenLeadingDigit(21);
  }
}
