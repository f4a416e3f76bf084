/** The AppState object and the global functions that drive it:
    submitting a job, the poll cycle, the repeating timer and the edited
    slide written back into the history. Each method is specified by the
    pure function of the Session or History module it carries out. */
module App {
  import opened Values
  import opened Retry
  import opened JobResponse
  import opened History
  import opened Session

  /** `localStorage.getItem('slideHistory')`: None when the key is missing. */
  function Stored(storage: map<string, StoredText>): Option<StoredText>
  {
    if HISTORY_KEY in storage then Some(storage[HISTORY_KEY]) else None
  }

  class AppState {
    var isGenerating: bool
    var currentJobId: Json
    var pollingInterval: Option<PollJob>
    var pollAttempts: nat
    var consecutiveErrors: nat
    var pollingStartTime: Option<int>
    var history: seq<Json>
    var currentSlides: seq<Json>
    /** What localStorage holds, key by key. */
    var storage: map<string, StoredText>

    function Generation(): State
      reads this
    {
      State(isGenerating, currentJobId, pollAttempts, consecutiveErrors, pollingStartTime, pollingInterval)
    }

    function Snapshot(): World
      reads this
    {
      World(Generation(), history, storage, currentSlides)
    }

    /** `new AppState()` over the given storage: idle, with the history
        loaded from it. */
    constructor (initialStorage: map<string, StoredText>)
      ensures Snapshot() == World(Idle, History.LoadHistory(Stored(initialStorage)), initialStorage, [])
    {
      isGenerating := false;
      currentJobId := JNull;
      pollingInterval := None;
      pollAttempts := 0;
      consecutiveErrors := 0;
      pollingStartTime := None;
      storage := initialStorage;
      currentSlides := [];
      history := [];
      new;
      history := LoadHistory();
    }

    /** `loadHistory()`: at most 50 stored items, or [] for anything that is
        missing, not JSON or not an array. */
    method LoadHistory() returns (h: seq<Json>)
      ensures h == History.LoadHistory(Stored(storage))
      ensures |h| <= MAX_HISTORY_ITEMS
    {
      var stored := if HISTORY_KEY in storage then storage[HISTORY_KEY] else EmptyText;
      match stored
      case Serialized(parsed) =>
        if !parsed.JArr? {
          return [];
        }
        h := Prefix(parsed.items, MAX_HISTORY_ITEMS);
      case EmptyText =>
        h := [];
      case Garbage =>
        h := [];
    }

    /** `saveHistory()`. */
    method SaveHistory(first: WriteOutcome, retry: WriteOutcome)
      modifies this
      ensures var saved := History.SaveHistory(old(history), old(storage), first, retry);
        history == saved.history && storage == saved.storage
      ensures Generation() == old(Generation()) && currentSlides == old(currentSlides)
    {
      match first
      case Written =>
        storage := storage[HISTORY_KEY := Serialized(JArr(history))];
      case QuotaExceeded =>
        history := Prefix(history, QUOTA_TRIM);
        if retry == Written {
          storage := storage[HISTORY_KEY := Serialized(JArr(history))];
        }
      case WriteFailed =>
    }

    /** `startGeneration(jobId)` at time `now`; `threw` when a session is
        already active, in which case nothing changes. */
    method StartGeneration(jobId: Json, now: int) returns (threw: bool)
      modifies this
      ensures threw <==> old(isGenerating)
      ensures threw ==> Snapshot() == old(Snapshot())
      ensures !threw ==> Snapshot() == old(Snapshot()).(session := Start(old(Generation()), jobId, now).value)
    {
      if isGenerating {
        return true;
      }
      isGenerating := true;
      currentJobId := jobId;
      pollAttempts := 0;
      consecutiveErrors := 0;
      pollingStartTime := Some(now);
      return false;
    }

    /** `stopGeneration()`: every session field back to its idle value and
        the timer cleared. The result does not depend on the state, so a
        second call changes nothing. */
    method StopGeneration()
      modifies this
      ensures Snapshot() == old(Snapshot()).(session := Idle)
    {
      isGenerating := false;
      currentJobId := JNull;
      pollAttempts := 0;
      consecutiveErrors := 0;
      pollingStartTime := None;
      if pollingInterval.Some? {
        pollingInterval := None;  // clearInterval
      }
    }

    /** `addToHistory(newItem)`: replace the entry with the same job id in
        place, or put the new one first; cap at 50; save. `threw` when the
        search meets a null item, before anything changes. */
    method AddToHistory(entry: map<string, Json>, first: WriteOutcome, retry: WriteOutcome)
      returns (threw: bool)
      modifies this
      ensures threw <==> Upsert(old(history), entry).None?
      ensures threw ==> Snapshot() == old(Snapshot())
      ensures !threw ==>
        var saved := History.SaveHistory(Upsert(old(history), entry).value, old(storage), first, retry);
        && history == saved.history && storage == saved.storage
        && Generation() == old(Generation()) && currentSlides == old(currentSlides)
    {
      var existing := FindJobId(history, JobIdOf(JObj(entry)), 0);
      if existing.SearchThrew? {
        return true;
      }
      if existing.Found? {
        history := history[existing.index := JObj(entry)];
      } else {
        history := [JObj(entry)] + history;
      }
      if |history| > MAX_HISTORY_ITEMS {
        history := history[..MAX_HISTORY_ITEMS];
      }
      SaveHistory(first, retry);
      return false;
    }

    /** The catch block of checkJobStatus. */
    method CountPollError() returns (outcome: PollOutcome)
      modifies this
      ensures Cycled(Snapshot(), outcome) == Caught(old(Snapshot()))
    {
      consecutiveErrors := consecutiveErrors + 1;
      if consecutiveErrors >= MAX_CONSECUTIVE_ERRORS {
        StopGeneration();
        return AbortedByErrors;
      }
      return ErrorTolerated(consecutiveErrors);
    }

    /** `checkJobStatus(jobId, content, statusWebhook, mode)`. */
    method CheckJobStatus(job: PollJob, input: CycleInput) returns (outcome: PollOutcome)
      requires Supplied(input)
      modifies this
      ensures Cycled(Snapshot(), outcome) == Cycle(old(Snapshot()), job, input)
    {
      pollAttempts := pollAttempts + 1;
      var elapsed := input.now - (if pollingStartTime.Some? then pollingStartTime.value else 0);
      if pollAttempts > MAX_POLL_ATTEMPTS || elapsed > MAX_POLL_TIME {
        StopGeneration();
        return TimedOut;
      }
      var response, _, _ := RetryFetch(input.fetches, MAX_RETRIES);
      if !(response.Response? && response.body.JsonBody?) {
        outcome := CountPollError();
        return;
      }
      match ParseJobResponse(response.body.value)
      case ParseFailed(_) =>
        outcome := CountPollError();
      case NoJobYet =>
        consecutiveErrors := 0;
        return NotAvailableYet;
      case Job(record) =>
        outcome := OnStatusRecord(job, record, input);
    }

    /** The part of checkJobStatus that dispatches on the status. */
    method OnStatusRecord(job: PollJob, record: map<string, Json>, input: CycleInput)
      returns (outcome: PollOutcome)
      requires "status" in record
      modifies this
      ensures Cycled(Snapshot(), outcome) == OnRecord(old(Snapshot()), job, record, input)
    {
      var status := record["status"];
      if StrictEquals(status, JStr("OUT_OF_LIMIT")) {
        StopGeneration();
        return OutOfLimit;
      }
      if StrictEquals(status, JStr("EMPTY OUTPUT")) {
        StopGeneration();
        return EmptyOutput;
      }
      if StrictEquals(status, JStr("FAILED")) || StrictEquals(status, JStr("Failed")) {
        StopGeneration();
        return JobFailed(FailureMessage(record));
      }
      consecutiveErrors := 0;
      if CompletedWithSlides(record) {
        StopGeneration();
        var slides := record["slides"].items;
        var threw := AddToHistory(Entry(job, slides, input), input.firstWrite, input.retryWrite);
        if threw {
          var counted := CountPollError();
          return EntryThrew;
        }
        currentSlides := slides;
        return Completed(|slides|);
      }
      return StillRunning(ProgressOf(record, pollAttempts));
    }

    /** One firing of the armed timer: the cycle of the job it closes over. */
    method PollTick(input: CycleInput) returns (outcome: PollOutcome)
      requires Supplied(input) && pollingInterval.Some?
      modifies this
      ensures Cycled(Snapshot(), outcome) == Cycle(old(Snapshot()), old(pollingInterval.value), input)
    {
      outcome := CheckJobStatus(pollingInterval.value, input);
    }
  }

  /** `handleGenerate(payload, submitWebhook, statusWebhook, mode)` with
      `content` for `payload.pesan`; `rule` chooses between the timer
      arming as written and the corrected one. */
  method HandleGenerate(app: AppState, content: string, mode: Mode, submit: seq<FetchOutcome>,
                        startedAt: int, eager: CycleInput, rule: ArmRule)
    returns (outcome: GenerateOutcome)
    requires |submit| >= MAX_RETRIES && Supplied(eager)
    modifies app
    ensures Generated(app.Snapshot(), outcome)
         == Generate(old(app.Snapshot()), content, mode, submit, startedAt, eager, rule)
  {
    var response, _, _ := RetryFetch(submit, MAX_RETRIES);
    if !(response.Response? && response.body.JsonBody?) {
      app.StopGeneration();
      return SubmitFailed;
    }
    // retryFetch returns only ok responses, so the `!response.ok` branch
    // of the source is never taken
    match ExtractJobId(response.body.value)
    case JobIdFailed(_) =>
      app.StopGeneration();
      return NoJobIdReceived;
    case JobId(id) =>
      var threw := app.StartGeneration(id, startedAt);
      if threw {
        app.StopGeneration();
        return AlreadyGenerating;
      }
      var job := PollJob(id, content, mode);
      var first := app.CheckJobStatus(job, eager);
      if rule == ArmAlways || app.isGenerating {
        app.pollingInterval := Some(job);  // setInterval
      }
      return Polling(first);
  }

  /** `updateHistoryWithEditedSlide(editedSlide)` followed by the save;
      `threw` when the map meets a null item or slide, before anything
      changes. */
  method UpdateHistoryWithEditedSlide(app: AppState, edited: map<string, Json>, rule: MatchRule,
                                      first: WriteOutcome, retry: WriteOutcome)
    returns (threw: bool)
    modifies app
    ensures threw <==> EditedHistory(old(app.history), edited, rule).None?
    ensures threw ==> app.Snapshot() == old(app.Snapshot())
    ensures !threw ==>
      var saved := History.SaveHistory(EditedHistory(old(app.history), edited, rule).value,
                                       old(app.storage), first, retry);
      && app.history == saved.history && app.storage == saved.storage
      && app.Generation() == old(app.Generation()) && app.currentSlides == old(app.currentSlides)
  {
    var updated := EditedHistory(app.history, edited, rule);
    if updated.None? {
      return true;
    }
    app.history := updated.value;
    app.SaveHistory(first, retry);
    return false;
  }
}
