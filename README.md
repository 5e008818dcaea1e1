# DSJob: running an SAP Data Services batch job and waiting for it

This project models the core of `sap_ds_job_api.py`, a small SOAP client for
the SAP Data Services job server, and proves properties of the model.

- **Request templates** (module `Templates`). `DSJobApi` keeps SOAP envelopes
  with the placeholders `$1`, `$2` and `$3`. It fills them with Python's
  `str.replace`:
  - the status, error-log and trace-log bodies replace `$1` by the session id,
    then `$2` by the run id, then `$3` by the repository name;
  - the run body (the caller's job XML) and the logout body replace `$1` only;
  - the run request's SOAPAction header is `"job=<name>"`.

  `Replace` follows `str.replace` exactly: it scans left to right, replaces
  non-overlapping occurrences and never rescans inserted text. The envelope
  text is reproduced character for character. The lemmas say what ends up
  where, including what a `$2` or `$3` inside a session id becomes.
- **The server and the clock** (module `Remote`). The job server is an oracle
  fixed in advance by a `Behaviour`:
  - the answer to the run request;
  - the answers to the status requests in order, each either a status or a
    failure;
  - the error log and the trace log;
  - how far each sleep overruns.

  A `Server` object records every request it is sent, how many status
  requests it has answered, how many sleeps were taken and the wall clock.
- **runWait as a specification** (module `Polling`). `Poll` is the polling
  loop as a function. `RunWaitEpisode` is the whole of `runWait` as a
  function of the behaviour. It gives:
  - the outcome: the trace log, or one of the errors `RemoteFailure`,
    `NotRun`, `Timeout` or `JobFailed(error log)`;
  - every request sent, in order;
  - the status requests, the sleeps and the seconds taken.

  The lemmas state the loop's properties: the guard, the retry after a failed
  status request, the strict deadline checked after every sleep, the bound on
  iterations and the classification of the outcome.
- **The job handle** (module `JobHandle`). `DSJob` is a class with the
  fields of the Python class. Its methods:
  - `Run`, `GetStatus` and `RunWait`;
  - `RunWait`'s loop, split into `Await`, `PollOnce` and `Finish`.

  `RunWait` is proved to do exactly what `RunWaitEpisode` describes: same
  outcome, same requests in the same order, same number of sleeps and same
  elapsed time.

A job that stays "running", with a 120 s timeout polled every 60 s, shows
how the strict deadline and the time spent on the network interact. The code
tests `submit_time > timeout_seconds` only after each sleep, and 120 is not
past 120. So when the run request and the status requests take under a second
in all, the code polls three times after the first status request and times
out at 180 s (`Polling.TimeoutAfterThreePolls`). One second of network time
before the first sleep ends is enough to make it time out after two polls, at
121 s (`Polling.TimeoutAfterTwoPollsWhenLate`).

## Model

| member | source | states |
|---|---|---|
| Templates.Replace | sap_ds_job_api.py:125 | Python's str.replace with a non-empty token: left to right, non-overlapping, inserted text never rescanned; its properties are ReplaceAbsent, ReplaceSelf, ReplaceAppend and ReplaceLeading |
| Templates.Fill | sap_ds_job_api.py:125 | the chain template.replace("$1", session).replace("$2", run).replace("$3", repo); what it produces is QueryBodyShape |
| Templates.QueryBody | sap_ds_job_api.py:141 | the status, error-log or trace-log body, the three templates differing only in their body element; characterised by QueryBodyShape and QueryBodyComplete |
| Templates.LogoutBody | sap_ds_job_api.py:92 | logout_xml with `$1` replaced; characterised by LogoutBodyShape |
| Templates.RunBody | sap_ds_job_api.py:108 | the caller's job XML with `$1` replaced; characterised by RunBodyShape and RunBodyStep |
| Templates.RunAction | sap_ds_job_api.py:109 | the SOAPAction value `"job=<name>"`; RunActionInjective shows it determines the job name |
| Templates.QueryXml | sap_ds_job_api.py:15-55 | status_xml, error_xml and trace_xml: one envelope with `$1` in SessionID, `$2` in runID and `$3` in repoName, differing only in the body element; FixedPartsFree shows no other `$` in it |
| Templates.ReplaceAbsent | sap_ds_job_api.py:125 | replacing a token that does not occur leaves the text unchanged |
| Templates.ReplaceSelf | sap_ds_job_api.py:125 | replacing a token by itself leaves the text unchanged |
| Templates.ReplaceAppend | sap_ds_job_api.py:125 | replacement distributes over a concatenation when no occurrence can straddle the seam |
| Templates.QueryBodyShape | sap_ds_job_api.py:125 | the chained replacement puts the session id at `$1` with its own `$2`/`$3` rewritten too, the run id at `$2` with its `$3` rewritten, and the repository name verbatim at `$3` |
| Templates.QueryBodyComplete | sap_ds_job_api.py:141 | with `$`-free values each value lands verbatim in its element and no `$1`, `$2` or `$3` is left in the body |
| Templates.SessionPlaceholderRewritten | sap_ds_job_api.py:157 | a session id of `$2` (or `$3`) is sent as the run id (or repository name): substitution order matters |
| Templates.LogoutBodyShape | sap_ds_job_api.py:92 | the logout body is the envelope with the session id verbatim in place of `$1`, even when it holds `$2` or `$3` |
| Templates.RunBodyShape | sap_ds_job_api.py:108 | for a job XML with one `$1` and no `$` before it, the run body is the session id in place of that `$1` with everything else kept, including any `$2`/`$3` after it or in the session id |
| Templates.RunBodyStep | sap_ds_job_api.py:108 | for any job XML: the text before the first `$1` is kept whatever `$` it holds, the session id replaces that `$1` and is not rescanned, and the rest is filled the same way; with ReplaceAbsent for the last segment this fixes the run body of every job XML |
| Templates.RunActionInjective | sap_ds_job_api.py:109 | two job names give the same SOAPAction header exactly when they are equal |
| Polling.Poll | sap_ds_job_api.py:256-272 | the loop makes exactly one status request per sleep |
| Polling.NextStatus | sap_ds_job_api.py:258-261 | the status after one status request in the loop: its answer, or the old status when the request fails; FailedQueryKeepsPolling and TransientFailure state the retry |
| Polling.SubmitRequest | sap_ds_job_api.py:108-110 | the run request: header `"job=<name>"` and the job XML with the session id at `$1`; RequestOrder puts it first and once |
| Polling.StatusQuery | sap_ds_job_api.py:125-126 | the status request for the run the run request returned; RequestOrder shows every status call sends it |
| Polling.ErrorLogQuery | sap_ds_job_api.py:141-142 | the error-log request for that run; OutcomeMatchesLastStatus shows it is the last request after a final status "error" |
| Polling.TraceLogQuery | sap_ds_job_api.py:157-158 | the trace-log request for that run; OutcomeMatchesLastStatus shows it is the last request after any other final status |
| Polling.RunWaitEpisode | sap_ds_job_api.py:242-281 | runWait as a function of the server's behaviour: outcome, requests in order, status calls, sleeps and elapsed seconds; its properties are the lemmas below, and DSJob.RunWait is proved equal to it |
| Polling.Verdict | sap_ds_job_api.py:274-281 | one log request exactly when polling did not time out; a Timeout outcome exactly when it timed out; a value only after a final status other than "error", and then it is the trace log |
| Polling.PollEnds | sap_ds_job_api.py:256-272 | the loop ends on a status other than "running", within the timeout if it slept; or it times out, only after a sleep that ended past the timeout; the clock never goes back |
| Polling.PollStatusFromServer | sap_ds_job_api.py:256-261 | the loop ends on the server's answer to the last status request, every request before it since entry having failed or answered "running"; it ends on the status it was entered with only when it made no request |
| Polling.PollElapsed | sap_ds_job_api.py:266-270 | every sleep advances the elapsed time by at least step_seconds |
| Polling.PollIterationBound | sap_ds_job_api.py:266-271 | the sleeps before the last take at least step seconds each and all fit in the time left before the timeout: (n - 1) * step <= timeout - elapsed for n sleeps |
| Polling.IterationsWithinDeadline | sap_ds_job_api.py:256-272 | whatever the server and the clock do, runWait sleeps at most timeout / step + 1 times and makes at most one status request more than it sleeps |
| Polling.FailedQueryKeepsPolling | sap_ds_job_api.py:258-261 | a failed status request inside the loop keeps the status "running" and polling goes on |
| Polling.DeadlineIsStrict | sap_ds_job_api.py:269-272 | an iteration that ends exactly at the timeout does not time out; the loop polls again |
| Polling.DeadlineBeatsFinalStatus | sap_ds_job_api.py:269-272 | a final status read in the iteration that crosses the deadline is still reported as a timeout |
| Polling.GuardStopsWithoutRunId | sap_ds_job_api.py:237-240 | without a run id, runWait fails with NotRun after the run request and before any status request or sleep |
| Polling.FirstStatusDecides | sap_ds_job_api.py:254-281 | a first status other than "running" means no sleep; "error" fetches the error log and fails with it, anything else fetches and returns the trace log |
| Polling.StaysRunningTimesOut | sap_ds_job_api.py:256-272 | a job that answers "running" first and afterwards only "running" or failed requests ends in Timeout, for every timeout, step and clock |
| Polling.StaysRunningPolls | sap_ds_job_api.py:256-272 | the loop, entered with "running" against such a server, always ends by timing out |
| Polling.RequestOrder | sap_ds_job_api.py:249-281 | the run request is sent once and first, then one status request per status call for the run it returned, then exactly one log request unless polling timed out or failed earlier |
| Polling.SucceedsOnlyWithTrace | sap_ds_job_api.py:274-281 | runWait returns a value exactly when it got a run id and a first status, polling ended on a final status other than "error" and the trace log was fetched; the value is the trace log |
| Polling.OutcomeMatchesLastStatus | sap_ds_job_api.py:274-281 | status calls are sleeps + 1; a timeout iff the clock went past the timeout; the error log after "error", the trace log after any other final status, as the last request |
| Polling.RunningThenDone | sap_ds_job_api.py:256-281 | running, running, done: the trace log after two status requests beyond the first, two sleeps and 120 s |
| Polling.ImmediateError | sap_ds_job_api.py:277-278 | "error" at once: fails with the error log, without a sleep |
| Polling.RunningThenError | sap_ds_job_api.py:256-278 | running, running, error: fails with the error log after two status requests beyond the first and two sleeps |
| Polling.TransientFailure | sap_ds_job_api.py:258-261 | a status request that fails between "running" and "done" is retried and "done" is observed |
| Polling.TimeoutAfterThreePolls | sap_ds_job_api.py:269-272 | always "running", timeout 120 s, step 60 s: three polls after the first, timeout at 180 s |
| Polling.TimeoutAfterTwoPollsWhenLate | sap_ds_job_api.py:269-272 | the same job with one second of network time before the first sleep ends: two polls after the first, timeout at 121 s |
| Polling.SecondsField | sap_ds_job_api.py:270 | `timedelta.seconds` is below a day and equals the elapsed seconds for runs shorter than a day |
| Polling.TimesOutAsWritten | sap_ds_job_api.py:270-271 | the deadline test on the seconds field, as the source writes it; AsWrittenMissesDeadline and AsWrittenMissesLateDeadline show where it differs from the whole elapsed time |
| Polling.AsWrittenMissesDeadline | sap_ds_job_api.py:270-271 | with the seconds field, a timeout of 86399 s or more never fires, however long the job runs |
| Polling.AsWrittenMissesLateDeadline | sap_ds_job_api.py:270-271 | with the seconds field, an iteration ending a whole number of days plus at most the timeout after submission is past the deadline yet does not time out (90000 s against 3600 s, for one) |
| Remote.Server.PostRun | sap_ds_job_api.py:110-112 | the run request is logged and answered from the behaviour |
| Remote.Server.PostStatus | sap_ds_job_api.py:126-128 | the status request is logged and answered with the next scripted status answer |
| Remote.Server.PostErrorLog | sap_ds_job_api.py:141-144 | the error-log request is logged and answered with the scripted error log, or fails |
| Remote.Server.PostTraceLog | sap_ds_job_api.py:157-160 | the trace-log request is logged and answered with the scripted trace log, or fails |
| Remote.Server.Sleep | sap_ds_job_api.py:266 | a sleep advances the clock by at least its argument |
| JobHandle.DSJob.constructor | sap_ds_job_api.py:222-229 | a new handle holds the host and session id of its logon, no run id, and the defaults of 60 s per step and 3600 s timeout |
| JobHandle.DSJob.Run | sap_ds_job_api.py:234-235 | sends the run request once; on success the run id and repository name are the server's, on failure they are unchanged |
| JobHandle.DSJob.GetStatus | sap_ds_job_api.py:237-240 | without a run id fails with NotRun and sends nothing; otherwise sends one status request for the current run and returns its answer |
| JobHandle.DSJob.RunWait | sap_ds_job_api.py:242-281 | the timeout defaults to 3600 s; sets timeout_seconds; its outcome, requests, status calls, sleeps and elapsed time are exactly those of RunWaitEpisode |
| JobHandle.DSJob.Await | sap_ds_job_api.py:256-272 | the polling loop ends where Poll says and leaves one status request per status call in the log |
| JobHandle.DSJob.PollOnce | sap_ds_job_api.py:258-271 | one iteration is one step of Poll: one status request, one sleep, then the deadline test |
| JobHandle.DSJob.Finish | sap_ds_job_api.py:274-281 | ends as Verdict says: a timeout, or the error log after "error", or the trace log otherwise, with the one log request that takes |

## Left out

- HTTP transport, SOAP headers and Content-Type: each request is an entry in the server's log, with the body that would be posted. Only the run request's SOAPAction header is modelled, because it depends on the job.
- ElementTree parsing of the answers. The server answers with the value that `find(...).text` would give, or with a failure when the request or the lookup raises.
- An element that is present but empty, whose `.text` is None. The run id None and "" are both modelled as "" (the guard only tests falsiness). A status, log text or repository name of None is not modelled.
- Logon in the constructor (sap_ds_job_api.py:68-80, 222-229): the host and session id are taken as given.
- Logout in `__del__` (sap_ds_job_api.py:283-284): its timing depends on finalisation. The logout body is modelled (`Templates.LogoutBodyShape`), the call is not.
- `__str__` and the debug prints (sap_ds_job_api.py:231-232, 251-252, 261, 264-265): output only.
- Real `datetime.now()` and `time.sleep`. The clock is a counter that only sleeps advance, by the step plus a scripted overrun that also stands for time spent on the network.
- step_seconds > 0 is required of the handle (`DSJob.Valid`). The source never changes the default of 60; a step of 0 would let the loop spin.
- The oracle is a finite script whose last status answer repeats for ever. A run reads only finitely many answers, so this describes any run.
- Where the source raises the timeout inside the loop, `DSJob.Await` ends the loop with a flag and `DSJob.Finish` reports it. No request or sleep happens in between, so the outcome is the same.
- The `.seconds` field of the elapsed time: see Findings. Poll and the class use whole elapsed seconds.

## Findings

| source | as written | input that shows it | evidently intended | confidence | as-written member | corrected member |
|---|---|---|---|---|---|---|
| sap_ds_job_api.py:270 | `submit_time = (current_datetime - submit_start).seconds` takes the seconds field of the timedelta, which drops whole days, so `submit_time` is always below 86400 | timeout_seconds = 86400 with a job that stays "running": the deadline test never holds and runWait polls for ever; with timeout 3600, an iteration that ends 90000 s after submission reads 3600 and does not time out | compare the whole elapsed time (`total_seconds()`), so that the deadline always fires | not executed | Polling.AsWrittenMissesDeadline | Polling.IterationsWithinDeadline |
