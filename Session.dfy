/** The generation session and one cycle of status polling
    (`checkJobStatus`), as pure functions over the state AppState holds:
    the session counters and timer, the history log, local storage and the
    slides on show. The AppState class is specified by these functions. */
module Session {
  import opened Values
  import opened Text
  import opened Retry
  import opened JobResponse
  import opened History

  const INITIAL_POLL_INTERVAL: int := 5000
  const MAX_CONSECUTIVE_ERRORS: nat := 3
  /** `MAX_POLL_ATTEMPTS * INITIAL_POLL_INTERVAL`: five minutes. */
  const MAX_POLL_TIME: int := MAX_POLL_ATTEMPTS * INITIAL_POLL_INTERVAL
  /** The length of the script preview kept in a history entry. */
  const SCRIPT_PREVIEW: nat := 100

  datatype Mode = Ide | Skrip

  function ModeName(m: Mode): string
  {
    match m
    case Ide => "ide"
    case Skrip => "skrip"
  }

  /** What a poll cycle closes over: the job id, the submitted text and the
      generator (which also fixes the status webhook). */
  datatype PollJob = PollJob(jobId: Json, content: string, mode: Mode)

  /** The generation fields of AppState. `pollingInterval` is the armed
      repeating timer, or None; `pollingStartTime` is None for null. */
  datatype State = State(
    isGenerating: bool,
    currentJobId: Json,
    pollAttempts: nat,
    consecutiveErrors: nat,
    pollingStartTime: Option<int>,
    pollingInterval: Option<PollJob>)

  /** The state `stopGeneration` leaves, whatever it started from. */
  const Idle: State := State(false, JNull, 0, 0, None, None)

  /** `startGeneration(jobId)` at time `now`: None when it throws because a
      session is already active. The timer is not touched. */
  function Start(s: State, jobId: Json, now: int): (r: Option<State>)
    ensures r.None? <==> s.isGenerating
    ensures r.Some? ==>
      && r.value.isGenerating && r.value.currentJobId == jobId
      && r.value.pollAttempts == 0 && r.value.consecutiveErrors == 0
      && r.value.pollingStartTime == Some(now) && r.value.pollingInterval == s.pollingInterval
  {
    if s.isGenerating then None
    else Some(State(true, jobId, 0, 0, Some(now), s.pollingInterval))
  }

  /** Everything a cycle can change. */
  datatype World = World(
    session: State,
    history: seq<Json>,
    storage: map<string, StoredText>,
    currentSlides: seq<Json>)

  /** What the environment supplies to one cycle: the clock when it starts,
      the outcomes of the status request's fetch calls, the clock and ISO
      time read when an entry is built, the creator and template fields of
      the form, and how the history writes turn out. */
  datatype CycleInput = CycleInput(
    now: int,
    fetches: seq<FetchOutcome>,
    completedAt: int,
    isoTime: string,
    creatorName: string,
    template: string,
    firstWrite: WriteOutcome,
    retryWrite: WriteOutcome)

  predicate Supplied(input: CycleInput)
  {
    |input.fetches| >= MAX_RETRIES
  }

  /** How a cycle ends. */
  datatype PollOutcome =
    | TimedOut                       // attempt or time budget spent
    | NotAvailableYet                // `[]`: the job is not visible yet
    | OutOfLimit
    | EmptyOutput
    | JobFailed(message: Json)       // FAILED or Failed
    | Completed(slideCount: nat)     // COMPLETED with slides: stored
    | StillRunning(progress: Progress)
    | EntryThrew                     // addToHistory threw after the stop
    | ErrorTolerated(errors: nat)    // an exception below the error budget
    | AbortedByErrors                // the third exception in a row

  datatype Cycled = Cycled(world: World, outcome: PollOutcome)

  /** `Date.now() - appState.pollingStartTime`; null counts as 0. */
  function Elapsed(s: State, now: int): int
  {
    now - (if s.pollingStartTime.Some? then s.pollingStartTime.value else 0)
  }

  /** The status record, `null` (NoJobYet), or None when the request, the
      body read or parseJobResponse throws. */
  function StatusReply(fetches: seq<FetchOutcome>): (r: Option<Parsed>)
    requires |fetches| >= MAX_RETRIES
    ensures r.Some? ==> !r.value.ParseFailed?
    ensures var f := Retry.Retry(fetches, MAX_RETRIES, 0).result;
      r.Some? <==> f.Response? && f.body.JsonBody? && !ParseJobResponse(f.body.value).ParseFailed?
    ensures r.Some? ==> r.value == ParseJobResponse(Retry.Retry(fetches, MAX_RETRIES, 0).result.body.value)
  {
    match Retry.Retry(fetches, MAX_RETRIES, 0).result
    case Response(JsonBody(data)) =>
      var p := ParseJobResponse(data);
      if p.ParseFailed? then None else Some(p)
    case _ => None
  }

  /** Three network failures in a row, a reply whose body is not JSON, and a
      JSON reply that is not a status record each leave no reply. */
  lemma AbsentReplies(rest: seq<FetchOutcome>)
    ensures StatusReply([NetworkTypeError, NetworkTypeError, NetworkTypeError] + rest).None?
    ensures StatusReply([Ok(NotJson), OtherError, OtherError] + rest).None?
    ensures StatusReply([Ok(JsonBody(JNum(0))), OtherError, OtherError] + rest).None?
  {
    var three := [NetworkTypeError, NetworkTypeError, NetworkTypeError] + rest;
    assert three[0] == three[1] == three[2] == NetworkTypeError;
  }

  /** `jobData.status === 'COMPLETED' && jobData.slides &&
      Array.isArray(jobData.slides) && jobData.slides.length > 0`. */
  predicate CompletedWithSlides(record: map<string, Json>)
  {
    "status" in record && StrictEquals(record["status"], JStr("COMPLETED"))
    && "slides" in record && record["slides"].JArr? && |record["slides"].items| > 0
  }

  /** `jobData.error || jobData.message || 'Terjadi kesalahan'`. */
  function FailureMessage(record: map<string, Json>): (r: Json)
    ensures Truthy(r)
    ensures "error" in record && Truthy(record["error"]) ==> r == record["error"]
    ensures !("error" in record && Truthy(record["error"])) && "message" in record && Truthy(record["message"])
      ==> r == record["message"]
    ensures !("error" in record && Truthy(record["error"])) && !("message" in record && Truthy(record["message"]))
      ==> r == JStr("Terjadi kesalahan")
  {
    if "error" in record && Truthy(record["error"]) then record["error"]
    else if "message" in record && Truthy(record["message"]) then record["message"]
    else JStr("Terjadi kesalahan")
  }

  /** The history entry a completed job produces. */
  function Entry(job: PollJob, slides: seq<Json>, input: CycleInput): map<string, Json>
  {
    map[
      "id" := JNum(input.completedAt),
      "script" := JStr(Truncate(job.content, SCRIPT_PREVIEW)),
      "slides" := JArr(slides),
      "creatorName" := JStr(input.creatorName),
      "template" := JStr(input.template),
      "timestamp" := JStr(input.isoTime),
      "jobId" := job.jobId,
      "mode" := JStr(ModeName(job.mode))]
  }

  /** The catch block: one more consecutive error, and the session stops at
      the third. */
  function Caught(w: World): Cycled
  {
    var errors := w.session.consecutiveErrors + 1;
    if errors >= MAX_CONSECUTIVE_ERRORS then Cycled(w.(session := Idle), AbortedByErrors)
    else Cycled(w.(session := w.session.(consecutiveErrors := errors)), ErrorTolerated(errors))
  }

  /** A status record that arrived; the session in `w` already counts
      this attempt. */
  function OnRecord(w: World, job: PollJob, record: map<string, Json>, input: CycleInput): Cycled
    requires "status" in record
  {
    var status := record["status"];
    if StrictEquals(status, JStr("OUT_OF_LIMIT")) then Cycled(w.(session := Idle), OutOfLimit)
    else if StrictEquals(status, JStr("EMPTY OUTPUT")) then Cycled(w.(session := Idle), EmptyOutput)
    else if StrictEquals(status, JStr("FAILED")) || StrictEquals(status, JStr("Failed")) then
      Cycled(w.(session := Idle), JobFailed(FailureMessage(record)))
    else if CompletedWithSlides(record) then
      var slides := record["slides"].items;
      match Upsert(w.history, Entry(job, slides, input))
      case Some(h) =>
        var saved := SaveHistory(h, w.storage, input.firstWrite, input.retryWrite);
        Cycled(World(Idle, saved.history, saved.storage, slides), Completed(|slides|))
      case None =>
        // addToHistory throws after stopGeneration; the catch block counts
        // one error against the idle session and carries on
        Cycled(w.(session := Idle.(consecutiveErrors := 1)), EntryThrew)
    else
      Cycled(w.(session := w.session.(consecutiveErrors := 0)),
             StillRunning(ProgressOf(record, w.session.pollAttempts)))
  }

  /** One call of `checkJobStatus(jobId, content, statusWebhook, mode)`. */
  function Cycle(w: World, job: PollJob, input: CycleInput): Cycled
    requires Supplied(input)
  {
    var s := w.session.(pollAttempts := w.session.pollAttempts + 1);
    if s.pollAttempts > MAX_POLL_ATTEMPTS || Elapsed(s, input.now) > MAX_POLL_TIME then
      Cycled(w.(session := Idle), TimedOut)
    else match StatusReply(input.fetches)
      case None => Caught(w.(session := s))
      case Some(NoJobYet) => Cycled(w.(session := s.(consecutiveErrors := 0)), NotAvailableYet)
      case Some(Job(record)) => OnRecord(w.(session := s), job, record, input)
  }

  /** Outcomes after which the session has been stopped. */
  predicate Terminal(o: PollOutcome)
  {
    o.TimedOut? || o.OutOfLimit? || o.EmptyOutput? || o.JobFailed? || o.Completed?
    || o.EntryThrew? || o.AbortedByErrors?
  }

  // ---------------------------------------------------------------------
  // Properties of one cycle

  /** The budget is checked before anything is fetched: the attempt counter
      is raised first, and a cycle past 60 attempts or five minutes stops
      the session, whatever the network would say, and touches nothing
      else. */
  lemma TimeBudget(w: World, job: PollJob, input: CycleInput, fetches: seq<FetchOutcome>)
    requires Supplied(input) && |fetches| >= MAX_RETRIES
    requires w.session.pollAttempts + 1 > MAX_POLL_ATTEMPTS
      || Elapsed(w.session, input.now) > MAX_POLL_TIME
    ensures Cycle(w, job, input) == Cycled(w.(session := Idle), TimedOut)
    ensures Cycle(w, job, input) == Cycle(w, job, input.(fetches := fetches))
  {
  }

  /** And conversely: a cycle times out only when a budget is spent. */
  lemma TimedOutOnlyOverBudget(w: World, job: PollJob, input: CycleInput)
    requires Supplied(input)
    requires Cycle(w, job, input).outcome == TimedOut
    ensures w.session.pollAttempts + 1 > MAX_POLL_ATTEMPTS
      || Elapsed(w.session, input.now) > MAX_POLL_TIME
  {
    NoTimeoutWithinBudget(w, job, input);
  }

  /** Within both budgets a cycle never times out. */
  lemma NoTimeoutWithinBudget(w: World, job: PollJob, input: CycleInput)
    requires Supplied(input)
    ensures w.session.pollAttempts + 1 <= MAX_POLL_ATTEMPTS && Elapsed(w.session, input.now) <= MAX_POLL_TIME
      ==> Cycle(w, job, input).outcome != TimedOut
  {
    var s := w.session.(pollAttempts := w.session.pollAttempts + 1);
    if !(s.pollAttempts > MAX_POLL_ATTEMPTS || Elapsed(s, input.now) > MAX_POLL_TIME) {
      match StatusReply(input.fetches)
      case None =>
      case Some(NoJobYet) =>
      case Some(Job(record)) =>
        assert "status" in record;
        if CompletedWithSlides(record) {
          var slides := record["slides"].items;
          match Upsert(w.history, Entry(job, slides, input))
          case Some(h) =>
          case None =>
        }
    }
  }

  /** A failed request, unreadable body or malformed record within budget
      costs one consecutive error; the third in a row stops the session.
      Nothing but the session changes. */
  lemma ErrorBudget(w: World, job: PollJob, input: CycleInput)
    requires Supplied(input)
    requires w.session.pollAttempts + 1 <= MAX_POLL_ATTEMPTS
      && Elapsed(w.session, input.now) <= MAX_POLL_TIME
    requires StatusReply(input.fetches).None?
    ensures var r := Cycle(w, job, input);
      var errors := w.session.consecutiveErrors + 1;
      && r.world.history == w.history && r.world.storage == w.storage
      && r.world.currentSlides == w.currentSlides
      && (errors >= MAX_CONSECUTIVE_ERRORS ==> r == Cycled(w.(session := Idle), AbortedByErrors))
      && (errors < MAX_CONSECUTIVE_ERRORS ==>
            r.outcome == ErrorTolerated(errors)
            && r.world.session == w.session.(pollAttempts := w.session.pollAttempts + 1,
                                             consecutiveErrors := errors))
  {
  }

  /** A cycle that does not end the session clears the error count, leaves
      the session running as it was apart from the attempt counter, and
      leaves history, storage and the slides alone. */
  lemma NonTerminalResetsErrors(w: World, job: PollJob, input: CycleInput)
    requires Supplied(input)
    requires Cycle(w, job, input).outcome.NotAvailableYet? || Cycle(w, job, input).outcome.StillRunning?
    ensures var r := Cycle(w, job, input).world;
      && r.session == w.session.(pollAttempts := w.session.pollAttempts + 1, consecutiveErrors := 0)
      && r.history == w.history && r.storage == w.storage && r.currentSlides == w.currentSlides
  {
  }

  /** OUT_OF_LIMIT, EMPTY OUTPUT, FAILED and Failed stop the session and
      return without touching history, storage or the slides. */
  lemma TerminalStatuses(w: World, job: PollJob, input: CycleInput, status: string, record: map<string, Json>)
    requires Supplied(input)
    requires w.session.pollAttempts + 1 <= MAX_POLL_ATTEMPTS
      && Elapsed(w.session, input.now) <= MAX_POLL_TIME
    requires StatusReply(input.fetches) == Some(Job(record))
    requires status in {"OUT_OF_LIMIT", "EMPTY OUTPUT", "FAILED", "Failed"}
    requires "status" in record && record["status"] == JStr(status)
    ensures var r := Cycle(w, job, input);
      && r.world == w.(session := Idle)
      && (status == "OUT_OF_LIMIT" <==> r.outcome == OutOfLimit)
      && (status == "EMPTY OUTPUT" <==> r.outcome == EmptyOutput)
      && (status == "FAILED" || status == "Failed" <==> r.outcome == JobFailed(FailureMessage(record)))
  {
  }

  /** COMPLETED with a non-empty slides array stops the session, shows those
      slides and saves the log with the entry upserted into it; the entry
      carries this job id, mode and the script preview. */
  lemma CompletedStoresEntry(w: World, job: PollJob, input: CycleInput)
    requires Supplied(input)
    requires Cycle(w, job, input).outcome.Completed?
    ensures StatusReply(input.fetches).Some? && StatusReply(input.fetches).value.Job?
    ensures var record := StatusReply(input.fetches).value.record;
      && CompletedWithSlides(record)
      && var slides := record["slides"].items;
         var entry := Entry(job, slides, input);
         var r := Cycle(w, job, input);
         && Upsert(w.history, entry).Some?
         && var saved := SaveHistory(Upsert(w.history, entry).value, w.storage, input.firstWrite, input.retryWrite);
         && r.world == World(Idle, saved.history, saved.storage, slides)
         && r.outcome == Completed(|slides|) && |slides| > 0
         && entry["jobId"] == job.jobId && entry["mode"] == JStr(ModeName(job.mode))
  {
    var s := w.session.(pollAttempts := w.session.pollAttempts + 1);
    assert !(s.pollAttempts > MAX_POLL_ATTEMPTS || Elapsed(s, input.now) > MAX_POLL_TIME);
    match StatusReply(input.fetches)
    case None =>
    case Some(NoJobYet) =>
    case Some(Job(record)) =>
      assert CompletedWithSlides(record);
      var slides := record["slides"].items;
      match Upsert(w.history, Entry(job, slides, input))
      case Some(h) =>
      case None =>
  }

  /** The script preview of an entry: the first 100 characters, and "..."
      only when the submitted text was longer. */
  lemma EntryScript(job: PollJob, slides: seq<Json>, input: CycleInput)
    ensures var script := Entry(job, slides, input)["script"].s;
      && (|job.content| <= SCRIPT_PREVIEW ==> script == job.content)
      && (|job.content| > SCRIPT_PREVIEW ==>
            script == job.content[..SCRIPT_PREVIEW] + "...")
  {
    var t := Truncate(job.content, SCRIPT_PREVIEW);
    if |job.content| > SCRIPT_PREVIEW {
      assert t == t[..SCRIPT_PREVIEW] + t[SCRIPT_PREVIEW..];
    }
  }

  /** Every cycle leaves the counters within their budgets, and none starts
      a session that was not running. */
  lemma CycleKeepsBudgets(w: World, job: PollJob, input: CycleInput)
    requires Supplied(input)
    ensures var r := Cycle(w, job, input).world.session;
      && r.pollAttempts <= MAX_POLL_ATTEMPTS
      && r.consecutiveErrors < MAX_CONSECUTIVE_ERRORS
      && (r.isGenerating ==> w.session.isGenerating)
      && (r.pollingInterval.Some? ==> r.pollingInterval == w.session.pollingInterval)
  {
    var s := w.session.(pollAttempts := w.session.pollAttempts + 1);
    if !(s.pollAttempts > MAX_POLL_ATTEMPTS || Elapsed(s, input.now) > MAX_POLL_TIME) {
      match StatusReply(input.fetches)
      case None =>
      case Some(NoJobYet) =>
      case Some(Job(record)) =>
        if CompletedWithSlides(record) {
          var slides := record["slides"].items;
          match Upsert(w.history, Entry(job, slides, input))
          case Some(h) =>
          case None =>
        }
    }
  }

  /** A terminal outcome leaves no session running and no timer armed (the
      session is exactly the idle one unless addToHistory threw, which
      leaves one error counted); any other outcome leaves the session
      generating exactly when it was, with the attempt counted. */
  lemma TerminalMeansIdle(w: World, job: PollJob, input: CycleInput)
    requires Supplied(input)
    ensures var r := Cycle(w, job, input);
      && (Terminal(r.outcome) ==> !r.world.session.isGenerating && r.world.session.pollingInterval.None?)
      && (Terminal(r.outcome) && !r.outcome.EntryThrew? ==> r.world.session == Idle)
      && (!Terminal(r.outcome) ==>
            r.world.session.isGenerating == w.session.isGenerating
            && r.world.session.pollAttempts == w.session.pollAttempts + 1
            && r.world.session.pollingInterval == w.session.pollingInterval)
  {
    var s := w.session.(pollAttempts := w.session.pollAttempts + 1);
    if !(s.pollAttempts > MAX_POLL_ATTEMPTS || Elapsed(s, input.now) > MAX_POLL_TIME) {
      match StatusReply(input.fetches)
      case None =>
      case Some(NoJobYet) =>
      case Some(Job(record)) =>
        if CompletedWithSlides(record) {
          var slides := record["slides"].items;
          match Upsert(w.history, Entry(job, slides, input))
          case Some(h) =>
          case None =>
        }
    }
  }

  // ---------------------------------------------------------------------
  // The repeating timer

  /** The armed timer firing once per input, in order, until it is
      cleared. Each tick runs the cycle of the job the timer closes over. */
  function Ticks(w: World, inputs: seq<CycleInput>): World
    requires forall i :: 0 <= i < |inputs| ==> Supplied(inputs[i])
    decreases |inputs|
  {
    if inputs == [] || w.session.pollingInterval.None? then w
    else Ticks(Cycle(w, w.session.pollingInterval.value, inputs[0]).world, inputs[1..])
  }

  /** Polling always ends: however the service answers, the timer is
      cleared by the time it has fired 61 times (fewer when attempts were
      already counted), because every tick that does not stop the session
      counts one more attempt. */
  lemma {:induction false} PollingStops(w: World, inputs: seq<CycleInput>)
    requires forall i :: 0 <= i < |inputs| ==> Supplied(inputs[i])
    requires |inputs| >= 1 && w.session.pollAttempts + |inputs| > MAX_POLL_ATTEMPTS
    ensures Ticks(w, inputs).session.pollingInterval.None?
    decreases |inputs|
  {
    if w.session.pollingInterval.Some? {
      var c := Cycle(w, w.session.pollingInterval.value, inputs[0]);
      TerminalMeansIdle(w, w.session.pollingInterval.value, inputs[0]);
      CycleKeepsBudgets(w, w.session.pollingInterval.value, inputs[0]);
      if !Terminal(c.outcome) {
        PollingStops(c.world, inputs[1..]);
      }
    }
  }

  /** Sixty-one ticks from a freshly started session always stop it. */
  lemma SixtyOneTicksStop(w: World, inputs: seq<CycleInput>)
    requires forall i :: 0 <= i < |inputs| ==> Supplied(inputs[i])
    requires w.session.pollAttempts == 0 && |inputs| == MAX_POLL_ATTEMPTS + 1
    ensures Ticks(w, inputs).session.pollingInterval.None?
  {
    PollingStops(w, inputs);
  }

  /** Three failing status requests in a row, within the budgets, stop a
      session that had no errors counted. */
  lemma ThreeFailuresStop(w: World, inputs: seq<CycleInput>)
    requires |inputs| == MAX_CONSECUTIVE_ERRORS
    requires forall i :: 0 <= i < |inputs| ==> Supplied(inputs[i])
    requires w.session.pollingInterval.Some? && w.session.consecutiveErrors == 0
    requires w.session.pollAttempts + |inputs| <= MAX_POLL_ATTEMPTS
    requires forall i :: 0 <= i < |inputs| ==>
      Supplied(inputs[i]) && Elapsed(w.session, inputs[i].now) <= MAX_POLL_TIME
      && StatusReply(inputs[i].fetches).None?
    ensures Ticks(w, inputs).session == Idle
    ensures Ticks(w, inputs).history == w.history
  {
    var job := w.session.pollingInterval.value;
    var w1 := Cycle(w, job, inputs[0]).world;
    ErrorBudget(w, job, inputs[0]);
    var w2 := Cycle(w1, job, inputs[1]).world;
    ErrorBudget(w1, job, inputs[1]);
    var w3 := Cycle(w2, job, inputs[2]).world;
    ErrorBudget(w2, job, inputs[2]);
    assert inputs[1..][0] == inputs[1] && inputs[1..][1..][0] == inputs[2];
    assert inputs[1..][1..][1..] == [];
    assert Ticks(w, inputs) == Ticks(w1, inputs[1..]);
    assert Ticks(w1, inputs[1..]) == Ticks(w2, inputs[1..][1..]);
    assert Ticks(w2, inputs[1..][1..]) == Ticks(w3, inputs[1..][1..][1..]);
  }

  // ---------------------------------------------------------------------
  // Submitting a job: handleGenerate

  /** What setInterval is guarded by once the first cycle has run: as
      written the timer is armed unconditionally; the corrected rule arms it
      only while the session is still generating. */
  datatype ArmRule = ArmAlways | ArmIfGenerating

  datatype GenerateOutcome =
    | SubmitFailed           // retryFetch threw, or the body was not JSON
    | NoJobIdReceived        // neither jobId nor job_id is truthy
    | AlreadyGenerating      // startGeneration threw
    | Polling(first: PollOutcome)

  datatype Generated = Generated(world: World, outcome: GenerateOutcome)

  /** `handleGenerate(payload, submitWebhook, statusWebhook, mode)`, where
      `content` is `payload.pesan`: submit, read the job id, start the
      session at `startedAt`, run the first cycle at once, then arm the
      timer. Every exception ends in stopGeneration. */
  function Generate(w: World, content: string, mode: Mode, submit: seq<FetchOutcome>,
                    startedAt: int, eager: CycleInput, rule: ArmRule): Generated
    requires |submit| >= MAX_RETRIES && Supplied(eager)
  {
    var response := Retry.Retry(submit, MAX_RETRIES, 0).result;
    if !(response.Response? && response.body.JsonBody?) then Generated(w.(session := Idle), SubmitFailed)
    else match ExtractJobId(response.body.value)
      case JobIdFailed(_) => Generated(w.(session := Idle), NoJobIdReceived)
      case JobId(id) =>
        match Start(w.session, id, startedAt)
        case None => Generated(w.(session := Idle), AlreadyGenerating)
        case Some(started) =>
          var job := PollJob(id, content, mode);
          var c := Cycle(w.(session := started), job, eager);
          var armed := if rule == ArmAlways || c.world.session.isGenerating then Some(job)
                       else c.world.session.pollingInterval;
          Generated(c.world.(session := c.world.session.(pollingInterval := armed)), Polling(c.outcome))
  }

  /** The job id the submission response yields, if any. */
  function SubmittedJobId(submit: seq<FetchOutcome>): Option<Json>
    requires |submit| >= MAX_RETRIES
  {
    var response := Retry.Retry(submit, MAX_RETRIES, 0).result;
    if response.Response? && response.body.JsonBody? && ExtractJobId(response.body.value).JobId? then
      Some(ExtractJobId(response.body.value).id)
    else None
  }

  /** A session is started only with a truthy job id from the response and
      only when none was running; every failure before polling stops the
      session and changes nothing else, which tears down a session that was
      already running when the submission raced it. */
  lemma GenerateStartsOnlyWithJobId(w: World, content: string, mode: Mode, submit: seq<FetchOutcome>,
                                    startedAt: int, eager: CycleInput, rule: ArmRule)
    requires |submit| >= MAX_RETRIES && Supplied(eager)
    ensures var g := Generate(w, content, mode, submit, startedAt, eager, rule);
      && (g.outcome.Polling? <==> SubmittedJobId(submit).Some? && !w.session.isGenerating)
      && (g.outcome.Polling? ==> Truthy(SubmittedJobId(submit).value))
      && (g.outcome.AlreadyGenerating? <==> SubmittedJobId(submit).Some? && w.session.isGenerating)
      && (!g.outcome.Polling? ==> g.world == w.(session := Idle))
  {
  }

  /** When polling started, the first cycle ran on the fresh session and
      the timer closes over the new job. */
  lemma GeneratePolls(w: World, content: string, mode: Mode, submit: seq<FetchOutcome>,
                      startedAt: int, eager: CycleInput, rule: ArmRule)
    requires |submit| >= MAX_RETRIES && Supplied(eager)
    requires Generate(w, content, mode, submit, startedAt, eager, rule).outcome.Polling?
    ensures var id := SubmittedJobId(submit).value;
      var job := PollJob(id, content, mode);
      var c := Cycle(w.(session := State(true, id, 0, 0, Some(startedAt), w.session.pollingInterval)), job, eager);
      var g := Generate(w, content, mode, submit, startedAt, eager, rule);
      && g.outcome == Polling(c.outcome)
      && g.world.history == c.world.history && g.world.storage == c.world.storage
      && g.world.session.isGenerating == c.world.session.isGenerating
      && (c.world.session.isGenerating ==> g.world.session.pollingInterval == Some(job))
  {
  }

  /** The session invariant the timer logic is meant to keep: a timer is
      armed only during a session, and a session always has a start
      time. */
  predicate Consistent(s: State)
  {
    (s.isGenerating ==> s.pollingStartTime.Some?) && (s.pollingInterval.Some? ==> s.isGenerating)
  }

  lemma CycleKeepsConsistent(w: World, job: PollJob, input: CycleInput)
    requires Supplied(input) && Consistent(w.session)
    ensures Consistent(Cycle(w, job, input).world.session)
  {
    TerminalMeansIdle(w, job, input);
    var s := w.session.(pollAttempts := w.session.pollAttempts + 1);
    if !(s.pollAttempts > MAX_POLL_ATTEMPTS || Elapsed(s, input.now) > MAX_POLL_TIME) {
      match StatusReply(input.fetches)
      case None =>
      case Some(NoJobYet) =>
      case Some(Job(record)) =>
    }
  }

  /** As written: when the first cycle already ends the session, the timer
      is armed anyway on an idle session whose start time is null. */
  lemma EagerTerminalArmsIdleTimer(w: World, content: string, mode: Mode, submit: seq<FetchOutcome>,
                                   startedAt: int, eager: CycleInput)
    requires |submit| >= MAX_RETRIES && Supplied(eager)
    requires var g := Generate(w, content, mode, submit, startedAt, eager, ArmAlways);
      g.outcome.Polling? && Terminal(g.outcome.first)
    ensures var g := Generate(w, content, mode, submit, startedAt, eager, ArmAlways);
      && !g.world.session.isGenerating
      && g.world.session.pollingInterval == Some(PollJob(SubmittedJobId(submit).value, content, mode))
      && g.world.session.pollingStartTime.None?
      && !Consistent(g.world.session)
  {
    var id := SubmittedJobId(submit).value;
    var job := PollJob(id, content, mode);
    TerminalMeansIdle(w.(session := State(true, id, 0, 0, Some(startedAt), w.session.pollingInterval)), job, eager);
  }

  /** ... and the next tick of that timer (five seconds later, with a real
      clock far beyond 300000 ms) counts the elapsed time from 0 and reports
      a timeout for a job that has already finished. */
  lemma StaleTimerReportsTimeout(w: World, content: string, mode: Mode, submit: seq<FetchOutcome>,
                                 startedAt: int, eager: CycleInput, next: CycleInput)
    requires |submit| >= MAX_RETRIES && Supplied(eager) && Supplied(next)
    requires var g := Generate(w, content, mode, submit, startedAt, eager, ArmAlways);
      g.outcome.Polling? && Terminal(g.outcome.first)
    requires next.now > MAX_POLL_TIME
    ensures var g := Generate(w, content, mode, submit, startedAt, eager, ArmAlways);
      var c := Cycle(g.world, g.world.session.pollingInterval.value, next);
      c.outcome == TimedOut && c.world == g.world.(session := Idle)
  {
    EagerTerminalArmsIdleTimer(w, content, mode, submit, startedAt, eager);
  }

  /** Corrected: arming the timer only while the session is generating
      keeps the invariant, so no tick ever sees an idle session. */
  lemma GuardedArmingKeepsConsistent(w: World, content: string, mode: Mode, submit: seq<FetchOutcome>,
                                     startedAt: int, eager: CycleInput)
    requires |submit| >= MAX_RETRIES && Supplied(eager) && Consistent(w.session)
    ensures Consistent(Generate(w, content, mode, submit, startedAt, eager, ArmIfGenerating).world.session)
  {
    var response := Retry.Retry(submit, MAX_RETRIES, 0).result;
    if response.Response? && response.body.JsonBody? && ExtractJobId(response.body.value).JobId? {
      var id := ExtractJobId(response.body.value).id;
      if !w.session.isGenerating {
        var started := State(true, id, 0, 0, Some(startedAt), w.session.pollingInterval);
        CycleKeepsConsistent(w.(session := started), PollJob(id, content, mode), eager);
      }
    }
  }

  /** Under the invariant a tick measures the elapsed time from the real
      start of the session. */
  lemma ConsistentTickUsesStartTime(s: State, now: int)
    requires Consistent(s) && s.pollingInterval.Some?
    ensures Elapsed(s, now) == now - s.pollingStartTime.value
  {
  }

  /** A concrete run: the service answers the first status request with
      FAILED; the failure is reported, the timer is armed all the same, and
      its first tick at a real clock value reports a timeout as well. */
  lemma FailedJobAlsoTimesOut()
    ensures var w := World(Idle, [], map[], []);
      var submit := [Ok(JsonBody(JObj(map["jobId" := JStr("job-1")]))), OtherError, OtherError];
      var failed := Ok(JsonBody(JObj(map["status" := JStr("FAILED")])));
      var eager := CycleInput(1000, [failed, OtherError, OtherError], 1000, "", "", "", Written, Written);
      var g := Generate(w, "an idea", Ide, submit, 1000, eager, ArmAlways);
      var next := eager.(now := 1700000005000);
      && g.outcome == Polling(JobFailed(JStr("Terjadi kesalahan")))
      && g.world.session.pollingInterval == Some(PollJob(JStr("job-1"), "an idea", Ide))
      && Cycle(g.world, g.world.session.pollingInterval.value, next).outcome == TimedOut
  {
    var failed := Ok(JsonBody(JObj(map["status" := JStr("FAILED")])));
    assert Retry.Retry([failed, OtherError, OtherError], MAX_RETRIES, 0).result == Response(JsonBody(JObj(map["status" := JStr("FAILED")])));
  }
}
