# Carousel generator client, modelled in Dafny

This project models the browser client of a carousel generator. The client
submits an idea (`ide`) or a script (`skrip`) to a remote workflow service
and receives a job id. It then polls the service for the job's status until
the job completes, fails or runs out of budget. Finished jobs are kept in a
history log in local storage. Slides can be previewed, and an edited slide
can be written back into the log.

The model covers:

- **AppState** (`App.AppState`): the session flags and counters, the
  repeating timer, the history log, the slides on show, and local storage.
  Each of its methods is specified by a pure function of the `History` or
  `Session` module over a snapshot of the whole state.
- **`retryFetch`** (`Retry`): up to three calls to fetch. There is
  exponential backoff after network TypeErrors only. The network is an
  oracle: a sequence of per-call outcomes.
- **Reading the service's replies** (`JobResponse`):
  - `parseJobResponse`;
  - the job-id read of `handleGenerate`;
  - the progress figure shown while a job is still running.
- **Submitting and polling** (`Session.Generate`, `Session.Cycle`,
  `App.HandleGenerate`, `App.AppState.CheckJobStatus`):
  - one poll cycle with its attempt, time and error budgets and its ten
    ways of ending;
  - the first cycle run at once after submission;
  - the repeating timer as a sequence of ticks (`Session.Ticks`).
- **The generator entry points and the Enter key** (`Requests`).
- **The sidebar's recency grouping** (`Recency`).
- **The preview modal** (`Preview`).
- **The slide editor's state, apart from the canvas** (`Editor`):
  - the edited-slide record;
  - propagation of the edit into every history entry;
  - the byte copy of `dataURLToBlob`;
  - the object-list labels.

The same client exists in two versions:

- `script.js`;
- `ui.js` together with `n8n.js` and `fitur.js`.

Their AppState, polling and request code is the same. The copies differ
in small details: ui.js writes the literal 50 where script.js uses
`MAX_HISTORY_ITEMS`, and n8n.js has no `handleKeyPress`. The table cites
`script.js` for the shared code, and `ui.js` for the view-dispatching
`handleKeyPress`. The editor rows cite `fitur.js`, but script.js holds the
same editor code line for line (from `openEditSlide` at script.js:1208), so
they could equally cite script.js.

Where the written description of the client and its code disagree, the
model follows the code:

- **Non-2xx responses are retried.** A non-2xx response on an attempt other
  than the last is retried at once, with no delay (script.js:493-498). It
  is not a final failure.
- **Array submission replies give no job id.** The job id is read as
  `data.jobId || data.job_id` directly from the submission response
  (script.js:617). An array response therefore yields no job id.
- **The `!response.ok` branch of `handleGenerate` is never taken**
  (script.js:612-615). `retryFetch` only ever returns ok responses.
- **A submission that races a running session tears it down.** When a
  submission comes back while a session is already running,
  `startGeneration` throws. The catch block then calls
  `stopGeneration`, which ends the session that was running.
- **A history entry that cannot be stored leaves one error counted.**
  `saveHistory` catches every storage error itself, so a failed write
  never throws (script.js:60-76). `addToHistory` throws only when its
  `findIndex` search reads `.jobId` of a null history item
  (script.js:103-105). When that happens inside a completed cycle, the
  session has already been stopped, and the catch block then counts one
  consecutive error against the idle session.

## Model

| member | source | states |
|---|---|---|
| Text.Truncate | script.js:755 | the first `limit` characters, followed by "..." exactly when the input is longer; a short input is kept whole |
| Text.TruncateBounds | script.js:755 | a truncated preview is at most three characters longer than the limit and begins with the kept prefix of the input |
| Text.TrimSpec | script.js:547 | `trim` yields the contiguous piece of the input that neither starts nor ends with ECMAScript white space or a line terminator (every Zs space separator included), and everything it drops before and after that piece is such a character; it is empty exactly when every character of the input is one of those |
| Text.Utf16LengthBounds | script.js:755 | a string's length in UTF-16 code units lies between its length in characters and twice that, and equals it exactly when every character lies in the Basic Multilingual Plane |
| Retry.RetryFetch | script.js:489-508 | the loop returns, throws, sleeps and calls fetch exactly as the attempt-by-attempt definition `Retry` says |
| Retry.RetryFetchSpec | script.js:489-508 | between 1 and maxRetries calls; the loop ends at the first success, the first non-TypeError or the last attempt, and nowhere earlier; the result is that attempt's verdict, so only ok responses are returned; the trailing throw is unreachable; one backoff delay of 2^j s follows each earlier TypeError, and no delay follows a non-ok response |
| Retry.RetryFetchNoAttempts | script.js:507 | with no attempts allowed, nothing is fetched and "Failed after multiple retries" is thrown |
| Retry.BackoffShape | script.js:500-503 | every delay slept is 2^j * 1000 ms for some attempt j that failed with a TypeError |
| Retry.DefaultRetryDelays | script.js:10-14 | with the default of three attempts, the delays are none, 1 s, 2 s, or 1 s then 2 s |
| Retry.TwoServerErrorsThenOk | script.js:493-498 | two 500 responses and then a success: the success is returned after three calls with no delay |
| Retry.ThreeNetworkFailures | script.js:499-506 | three network failures: the TypeError is rethrown after sleeping 1 s and then 2 s |
| JobResponse.ParseJobResponse | script.js:512-524 | `[]` gives null; an object, or a non-empty array's first element, with a truthy status is the job record; any other value that is neither array nor object is an invalid format; every other case throws |
| JobResponse.ParseJobResponseCases | script.js:512-524 | the four shapes of a status reply and what each yields, including a missing or falsy status throwing |
| JobResponse.ExtractJobId | script.js:617-622 | a job id is obtained exactly when the reply is an object with a truthy `jobId` or `job_id`; `jobId` takes precedence; a null reply throws |
| JobResponse.JobIdFieldTolerance | script.js:617 | either field name yields the same job handle |
| JobResponse.ParseIntOfNumber | script.js:784 | `parseInt` of an integer below 10^21 in magnitude is that integer; from 10^21 on the decimal text is in exponent form and only its leading digit, 1 to 9 with the number's sign, is read |
| JobResponse.LeadingDigit | script.js:784 | the leading digit of a positive number is between 1 and 9 |
| JobResponse.PowerOfTenLeadingDigit | script.js:784 | every power of ten has leading digit 1 |
| JobResponse.ClampProgress | script.js:784 | the reported progress is clamped into 0..100 and kept unchanged when already inside |
| JobResponse.EstimatedProgress | script.js:788 | the estimate is 1.5% per attempt, stays below 90 before the last attempt, and never exceeds 90 |
| JobResponse.ProgressOf | script.js:783-791 | a numeric progress field is shown as `parseInt` reads it, clamped into 0..100; a field that is not a number is unreadable; without the field the estimate from the attempt count, within 0..90, is shown |
| JobResponse.ReportedProgress | script.js:783-791 | a figure below 10^21 is shown clamped, a negative one as 0, and one of 10^21 or more as its leading digit, between 1 and 9 |
| JobResponse.ExponentFormProgress | script.js:784 | a job reporting 10^21 percent is shown at 1 percent |
| History.LoadHistory | script.js:44-59 | at most 50 items; the first 50 of a stored array; an empty list for a missing key, an empty string, unparsable text or a non-array |
| History.SaveHistory | script.js:61-77 | saving touches no storage key other than the history key |
| History.SaveHistorySpec | script.js:61-77 | a save never fails outward and only shortens the log: what is kept is a prefix of it, the whole log unless the quota was exceeded, and at least its 20 newest entries; storage is left unchanged or holds exactly the log kept, and it changes only when a write went through; a first write that goes through stores the whole log; after a quota error the log is cut to its 20 newest entries, which the retry stores when it goes through and otherwise storage is untouched; any other first error leaves log and storage as they were |
| History.SaveThenLoad | script.js:44-77 | round trip: after a save whose write went through, loading gives back the log kept, up to the cap of 50 |
| History.FindJobId | script.js:103-105 | `findIndex` on the job id: the index found is the first match; absent means every item is non-null and different; the search throws exactly when it meets a null item before any match |
| History.MatchBeforeNull | script.js:103-105 | a match ahead of a null item is found, and the null item is never read |
| History.UpsertReplaces | script.js:102-118 | a job id already in the log: the entry replaces the old one at the same index and the length is unchanged |
| History.UpsertPrepends | script.js:102-118 | a new job id: the entry goes in front and the oldest entries beyond 50 are dropped |
| History.UpsertBounded | script.js:102-118 | addToHistory throws exactly when the search meets a null item first; otherwise the log holds the entry and at most 50 items |
| History.UpsertKeepsJobIdsUnique | script.js:102-118 | a log with at most one entry per job id keeps that property |
| History.Matches | fitur.js:185-186 | a slide counts as edited when its download_url or its url equals the edited slide's; reading a null slide throws |
| History.ReplaceSlides | fitur.js:184-190 | the slide list keeps its length |
| History.EditedHistory | fitur.js:182-194 | the log keeps its length |
| History.ReplaceSlidesSpec | fitur.js:184-190 | the slide map throws exactly when a slide is null; otherwise exactly the matching slides become the edited slide |
| History.EditedHistoryHolds | fitur.js:182-194 | the history map throws exactly when some item is unusable; otherwise each item is mapped on its own |
| History.EditedHistorySpec | fitur.js:180-197 | the log keeps its length; items without a slides array are kept; items with one keep their other fields and their slide count, and exactly their matching slides become the edited slide |
| History.AsWrittenReplacesUnrelatedSlides | fitur.js:185-186 | as written, editing one of two slides that carry only `url` replaces both; the corrected rule replaces only the one edited |
| History.CorrectedReplacesOnlySameUrl | fitur.js:185-186 | with the corrected rule, a slide changes only when it shares a URL that the edited slide actually carries |
| History.MatchRulesAgree | fitur.js:185-186 | the two rules agree whenever the edited slide carries both URL fields |
| Session.Start | script.js:79-88 | startGeneration throws exactly when a session is active; otherwise it marks generating, sets the job id, zeroes both counters, records the start time and leaves the timer alone |
| Session.StatusReply | script.js:662-665 | a reply is handed on exactly when `retryFetch` returns an ok response whose body is JSON and `parseJobResponse` accepts it, and it is then the parsed record or null; it is never a parse failure |
| Session.AbsentReplies | script.js:662-665 | three network failures, a body that is not JSON, or a JSON value that is not a status record each leave no reply |
| Session.FailureMessage | script.js:731 | the failure text shown is always truthy: it is the error field when that is truthy, else the message field when that is truthy, else the fixed default "Terjadi kesalahan" |
| Session.TimeBudget | script.js:648-658 | the attempt counter goes up first; past 60 attempts or five minutes the session stops with a timeout before anything is fetched, whatever the network would say, and nothing else changes |
| Session.TimedOutOnlyOverBudget | script.js:648-658 | conversely, a cycle times out only when a budget is spent |
| Session.NoTimeoutWithinBudget | script.js:648-658 | within both budgets a cycle never times out |
| Session.ErrorBudget | script.js:793-814 | within budget, a failed request, unreadable body or malformed record costs one consecutive error and changes nothing but the session; the third in a row stops it |
| Session.NonTerminalResetsErrors | script.js:667-671 | a cycle that leaves the job waiting or running clears the error count, counts the attempt and leaves history, storage and the slides alone |
| Session.TerminalStatuses | script.js:678-734 | OUT_OF_LIMIT, EMPTY OUTPUT, FAILED and Failed each stop the session with their own outcome and touch nothing else |
| Session.CompletedStoresEntry | script.js:738-765 | COMPLETED with a non-empty slide array stops the session, shows those slides, and saves the log with the entry upserted; the entry carries this job id and mode |
| Session.EntryScript | script.js:755 | the entry's script is the first 100 characters of the submitted text, with "..." only when the text was longer |
| Session.CycleKeepsBudgets | script.js:646-821 | after any cycle the attempts stay within 60 and the errors below 3; no cycle starts a session or arms a new timer |
| Session.TerminalMeansIdle | script.js:646-821 | a terminal outcome leaves no session running and no timer armed; any other outcome keeps the session and timer and counts the attempt |
| Session.PollingStops | script.js:629-658 | however the service answers, the timer is cleared by the time the attempts counted exceed 60 |
| Session.SixtyOneTicksStop | script.js:629-658 | 61 ticks from a fresh session always clear the timer |
| Session.ThreeFailuresStop | script.js:793-814 | three failing status requests in a row, within budget, stop the session and leave the log unchanged |
| Session.GenerateStartsOnlyWithJobId | script.js:595-643 | polling starts exactly when the reply carries a truthy job id and no session was running; every failure before polling stops the session and changes nothing else |
| Session.GeneratePolls | script.js:624-630 | once polling starts, the first cycle runs on the fresh session at once, and the timer closes over the new job while the session still runs |
| Session.CycleKeepsConsistent | script.js:646-821 | a cycle keeps the invariant "a timer is armed only during a session, and a session has a start time" |
| Session.EagerTerminalArmsIdleTimer | script.js:629-630 | as written, when the first cycle already ends the session, the timer is armed on an idle session with a null start time |
| Session.StaleTimerReportsTimeout | script.js:650-658 | as written, that timer's next tick measures elapsed time from 0 and reports a timeout for a job that has already finished |
| Session.GuardedArmingKeepsConsistent | script.js:629-630 | corrected: arming the timer only while the session is generating keeps the invariant |
| Session.ConsistentTickUsesStartTime | script.js:650 | under the invariant, a tick measures elapsed time from the session's real start |
| Session.FailedJobAlsoTimesOut | script.js:629-658 | a concrete submission whose first status is FAILED: the failure is reported, the timer is armed anyway, and its first tick reports a timeout |
| App.AppState.constructor | script.js:18-34 | a new AppState is idle, shows no slides, and holds the history loaded from storage |
| App.AppState.LoadHistory | script.js:44-59 | the log read from the history key, as History.LoadHistory defines it, at most 50 items |
| App.AppState.SaveHistory | script.js:61-77 | the log and storage afterwards are those of History.SaveHistory; the session and slides are untouched |
| App.AppState.StartGeneration | script.js:79-88 | throws exactly when a session is active and then changes nothing; otherwise the session becomes Session.Start of the old one |
| App.AppState.StopGeneration | script.js:90-100 | the session becomes idle and the timer is cleared, whatever the state was; nothing else changes |
| App.AppState.AddToHistory | script.js:102-118 | throws exactly when History.Upsert does, and then changes nothing; otherwise the upserted log is saved and nothing else changes |
| App.AppState.CountPollError | script.js:793-814 | the catch block: the new state and outcome are those of Session.Caught |
| App.AppState.CheckJobStatus | script.js:646-821 | the new state and outcome are exactly those of the cycle function Session.Cycle applied to the old state |
| App.AppState.OnStatusRecord | script.js:678-792 | the status dispatch, equal to Session.OnRecord |
| App.AppState.PollTick | script.js:630 | one firing of the armed timer runs the cycle of the job the timer closes over |
| App.HandleGenerate | script.js:595-643 | the new state and outcome are exactly those of Session.Generate |
| App.UpdateHistoryWithEditedSlide | fitur.js:180-197 | throws exactly when History.EditedHistory does, and then changes nothing; otherwise the edited log is saved and the session and slides are untouched |
| Requests.CreatorName | script.js:562 | the creator name is the trimmed field, or "none" when that is empty, and never empty |
| Requests.Request | script.js:546-569 | a blank input warns and sends nothing; a non-blank input while generating warns busy; otherwise a payload is built |
| Requests.PayloadFields | script.js:560-565 | the payload holds the trimmed text, the creator name, the template, and the voice tone on the ide form only |
| Requests.BlankInputSubmitsNothing | script.js:547-552 | the request is the empty-input refusal exactly when every character of the input is white space or a line terminator in the sense of `trim` |
| Requests.SingleCharacterInput | script.js:547-552 | a one-character input is refused exactly when that character is one `trim` removes |
| Requests.SpaceSeparators | script.js:547 | the ideographic space, the figure space, the Ogham space mark and the byte-order mark count as white space, a zero-width space and a letter do not |
| Requests.HandleModeGenerate | script.js:546-593 | the decision is Request's; nothing changes unless a payload is submitted, in which case the state is that of Session.Generate on the trimmed text |
| Requests.HandleIdeGenerate | script.js:546-569 | the ide generator: as HandleModeGenerate, for the ide mode |
| Requests.HandleSkripGenerate | script.js:571-593 | the skrip generator: as HandleModeGenerate, for the skrip mode |
| Requests.HandleKeyPress | ui.js:853-862 | Enter without Shift always prevents the default and runs the generator of the current view; any other key does nothing |
| Recency.GroupHistoryByDate | script.js:1138-1167 | throws exactly when an item is null; otherwise the groups are the four recency buckets of the input, in input order |
| Recency.BucketsPartition | script.js:1151-1163 | the four groups together hold every item exactly as often as the input does |
| Recency.BucketMembership | script.js:1151-1163 | each group holds only items of its bucket, and every input item of the bucket is in it |
| Recency.BucketMeaning | script.js:1155-1163 | today needs under 24 hours and the same day of the month; yesterday lies between the two midnights; this week is under 168 hours; everything else, invalid dates included, falls into the last group |
| Preview.WrapInRange | script.js:164-174 | one correction puts any index back into range and leaves an index already in range alone |
| Preview.WrapIsModular | script.js:164-174 | from an index in range, a step of one either way is a step modulo the slide count |
| Preview.WrapStepsCancel | script.js:164-174 | a step right undoes a step left and the other way round |
| Preview.PreviewModal.constructor | script.js:131-132 | the preview starts with no slides at index 0 |
| Preview.PreviewModal.Open | script.js:135-150 | opening records the slides and the index shown |
| Preview.PreviewModal.Close | script.js:153-162 | closing clears the slides and resets the index |
| Preview.PreviewModal.Navigate | script.js:164-174 | nothing changes on an empty list; otherwise the index moves, wraps, and ends in range |
| Preview.PreviewModal.HandleKey | script.js:183-195 | Escape closes, the arrow keys step left and right, and every other key changes nothing |
| Editor.ByteOfLatin1 | fitur.js:172 | a code unit below 256 is copied exactly |
| Editor.CopyBytes | fitur.js:168-173 | the byte array has the string's length, and each byte is the code unit at its index modulo 256 |
| Editor.EditedSlideFields | fitur.js:130-135 | the edited slide keeps every other field of the original and sets edited, edited_url and edited_at |
| Editor.EditSession.constructor | fitur.js:95-108 | the editor starts closed |
| Editor.EditSession.OpenEditSlide | fitur.js:40-44 | opening records the slide, its index and its list, and the URL of the original when the slide is not null |
| Editor.EditSession.CloseEditModal | fitur.js:95-108 | closing resets the slide, index, list and original URL |
| Editor.EditSession.SaveEditedSlide | fitur.js:111-159 | without a canvas or a decodable image nothing changes; a missing slot just closes the editor; otherwise the slot becomes the edited slide, and `appState.currentSlides` shows that write exactly when it is the edited array; the session flags keep their values; if the history update throws, history, storage and the editor are as they were; otherwise history and storage are those of saving the edited log and the editor closes |
| Editor.Capitalize | fitur.js:434 | capitalizing keeps the length and every character after the first |
| Editor.ObjectLabel | fitur.js:435-444 | the label is the object's name when it has at most 15 characters, and otherwise its first 15 characters followed by "..." |
| Editor.ObjectLabelExamples | fitur.js:435-444 | an empty textbox is labelled "Text", a rect "Rect", and a long caption is cut at 15 characters |

## Left out

- Rendering, toasts, dark mode, tabs, the progress bar's DOM updates, the results grids, downloads and the out-of-limit modal are left out. They only display the state that is modelled.
- Real asynchrony is not modelled. A cycle is atomic, so overlapping cycles (a tick firing while the eager cycle still awaits) are not represented. Neither is a replaced interval handle that keeps firing after `pollingInterval` is overwritten.
- Clocks, the network, `Date` parsing, `new Date().toISOString()` and local-midnight arithmetic are parameters. They appear as `CycleInput`, the fetch-outcome oracles, the `parse` function and `Clock` in `Recency`.
- Webhook URLs are not modelled. The status URL and the submit URL are fixed by the mode.
- Numbers are integers, so fractional JSON numbers are not represented. Only the progress estimate, which divides the attempt count, is an exact rational.
- JobResponse.ProgressOf: a progress field that is present but not a number is `Unreadable`. The model does not follow `parseInt` on strings. `Math.round` for display is also left out. Numbers are exact integers, so the rounding of a double above 2^53 (which can change the leading digit that `String(n)` writes) is not modelled.
- Text.Truncate: counts characters, where `substring` and `length` count UTF-16 code units. The two agree on text in the Basic Multilingual Plane (Text.Utf16LengthBounds). Beyond it the source counts two units per character and can cut a character in half, which a Dafny string cannot hold.
- Session.EntryScript: the 100-character limit is counted in characters, not UTF-16 code units, as for Text.Truncate.
- Editor.ObjectLabel: the 15-character limit is counted in characters, not UTF-16 code units, as for Text.Truncate.
- Editor.Capitalize: converts only ASCII lower-case letters. Full Unicode `toUpperCase` is not modelled.
- Editor.CopyBytes: `split`, the MIME regular expression, `atob` and `Blob` are not modelled. Whether the data URL decodes is a boolean parameter of SaveEditedSlide.
- Editor.EditSession.OpenEditSlide: loading the image and text objects onto the canvas (fabric.js) is left out.
- Editor.EditSession.SaveEditedSlide: the sharing of the editor's array with `appState.currentSlides` is a parameter, and the model copies the written slot into `currentSlides` when it is set. After a completed job the same array is also the `slides` of the newest history entry (script.js:756, 765). The model does not capture that sharing: in the source that entry holds the edited slide even when the URL match of `updateHistoryWithEditedSlide` would not replace it, and a history update that throws still leaves it edited in memory. The slide shown in the results grid is not updated in the model.
- The version of `handleKeyPress` in script.js:538-542 is left out. It calls `handleGenerate()` with no arguments, which throws inside the async function and is caught there. The ui.js version, which dispatches on the current view, is modelled.
- The warning for an unknown status in `parseJobResponse` is left out. It does not change the result.
- `loadHistoryItem`, the history sidebar's click handlers and the mode switch are left out. They are not part of the modelled core.

## Findings

| source | as written | input that shows it | evidently intended | confidence | as-written member | corrected member |
|---|---|---|---|---|---|---|
| script.js:629-630 (same in n8n.js:149-150) | after the first `checkJobStatus`, `setInterval` is installed unconditionally, even when that cycle already stopped the session | a submission whose first status reply is `FAILED`: the failure is shown, the timer is armed on an idle session, and its first tick computes `Date.now() - null` and reports a timeout too | arm the timer only while the session is still generating | not executed | Session.EagerTerminalArmsIdleTimer, Session.StaleTimerReportsTimeout, Session.FailedJobAlsoTimesOut | Session.GuardedArmingKeepsConsistent |
| fitur.js:185-186 (same in script.js:1353-1354) | `slide.download_url === editedSlide.download_url` holds when both are undefined | two history slides carrying only `url` ("a.jpg", "b.jpg"): editing the first replaces both with the edited slide | compare only a URL the edited slide actually has | not executed | History.AsWrittenReplacesUnrelatedSlides | History.CorrectedReplacesOnlySameUrl |
