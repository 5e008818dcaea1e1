/** What DSJob.runWait does (sap_ds_job_api.py:242-281), stated as a function
    of the server's behaviour: the requests it sends, the status calls and sleeps
    it makes, the seconds that pass and the outcome it reports. The class in
    JobHandle is proved to do exactly this; the lemmas here say what it means. */
module Polling {
  import opened Templates
  import opened Remote

  /** The status the loop waits on and the status that means failure. */
  const Running := "running"
  const ErrorStatus := "error"

  /** The class defaults: poll every minute, give up after an hour. */
  const DefaultStepSeconds: nat := 60
  const DefaultTimeoutSeconds: int := 3600

  /** Why runWait raised instead of returning the trace log. */
  datatype Error =
    | RemoteFailure            // a request failed or its answer could not be read
    | NotRun                   // the run request gave no run id
    | Timeout(seconds: int)    // polling outlived timeout_seconds
    | JobFailed(log: string)   // the job ended with status "error"; its error log

  datatype Result<T> = Ok(value: T) | Err(error: Error)

  /** Where the polling loop leaves off: with a final status, or by timing out. */
  datatype PollEnd =
    | Finished(status: string, calls: nat, sleeps: nat, elapsed: nat)
    | TimedOut(calls: nat, sleeps: nat, elapsed: nat)

  /** The loop at sap_ds_job_api.py:256-272, entered with `status` after `calls`
      status requests and `sleeps` sleeps, `elapsed` seconds after submission.
      A failed status request leaves the status as it was; every iteration
      sleeps `step` seconds (and whatever the clock adds) and then gives up when
      the elapsed time is strictly past the timeout, whatever the status. */
  function Poll(b: Behaviour, step: nat, timeout: int, status: string,
                calls: nat, sleeps: nat, elapsed: nat): (e: PollEnd)
    requires step > 0
    // one status request per sleep
    ensures e.sleeps >= sleeps && e.calls == calls + (e.sleeps - sleeps)
    decreases if elapsed <= timeout then timeout - elapsed + 1 else 0
  {
    if status != Running then Finished(status, calls, sleeps, elapsed)
    else
      var later := elapsed + step + b.Lag(sleeps);
      if later > timeout then TimedOut(calls + 1, sleeps + 1, later)
      else Poll(b, step, timeout, NextStatus(b, calls, status), calls + 1, sleeps + 1, later)
  }

  /** The status after the status request numbered `calls`: its answer, or the
      status as it was when that request fails. */
  function NextStatus(b: Behaviour, calls: nat, status: string): string
  {
    match b.Answer(calls)
    case Some(s) => s
    case None => status
  }

  /** How the loop can end: only on a status other than "running", reached
      within the timeout once it has slept; or by timing out, only after
      sleeping past the timeout. The clock never goes back. */
  lemma {:induction false} PollEnds(b: Behaviour, step: nat, timeout: int, status: string,
                                    calls: nat, sleeps: nat, elapsed: nat)
    requires step > 0
    ensures var e := Poll(b, step, timeout, status, calls, sleeps, elapsed);
            e.elapsed >= elapsed &&
            (e.Finished? ==> e.status != Running && (e.sleeps > sleeps ==> e.elapsed <= timeout)) &&
            (e.TimedOut? ==> e.sleeps > sleeps && e.elapsed > timeout)
    decreases if elapsed <= timeout then timeout - elapsed + 1 else 0
  {
    if status == Running {
      var later := elapsed + step + b.Lag(sleeps);
      if later <= timeout {
        PollEnds(b, step, timeout, NextStatus(b, calls, status), calls + 1, sleeps + 1, later);
      }
    }
  }

  /** Where the final status comes from: the status the loop was entered with
      when it polled no more, and otherwise the answer to the last status
      request, every request before it since entry having failed or answered
      "running". */
  lemma {:induction false} PollStatusFromServer(b: Behaviour, step: nat, timeout: int, status: string,
                                                calls: nat, sleeps: nat, elapsed: nat)
    requires step > 0
    ensures var e := Poll(b, step, timeout, status, calls, sleeps, elapsed);
            e.Finished? ==>
              (e.calls == calls ==> e.status == status) &&
              (e.calls > calls ==>
                 b.Answer(e.calls - 1) == Some(e.status) &&
                 forall k | calls <= k < e.calls - 1 :: b.Answer(k) == None || b.Answer(k) == Some(Running))
    decreases if elapsed <= timeout then timeout - elapsed + 1 else 0
  {
    if status == Running {
      var later := elapsed + step + b.Lag(sleeps);
      if later <= timeout {
        var next := NextStatus(b, calls, status);
        var e := Poll(b, step, timeout, next, calls + 1, sleeps + 1, later);
        assert Poll(b, step, timeout, status, calls, sleeps, elapsed) == e;
        PollStatusFromServer(b, step, timeout, next, calls + 1, sleeps + 1, later);
        PollEnds(b, step, timeout, next, calls + 1, sleeps + 1, later);
        if e.Finished? {
          if e.calls == calls + 1 {
            assert e.status == next != Running;
            assert b.Answer(calls) == Some(e.status);
          } else {
            // the loop went on, so the answer to request `calls` kept it running
            assert next == Running;
            forall k | calls <= k < e.calls - 1
              ensures b.Answer(k) == None || b.Answer(k) == Some(Running)
            {
            }
          }
        }
      }
    }
  }

  /** Every sleep takes at least `step` seconds. */
  lemma {:induction false} PollElapsed(b: Behaviour, step: nat, timeout: int, status: string,
                                       calls: nat, sleeps: nat, elapsed: nat)
    requires step > 0
    ensures var e := Poll(b, step, timeout, status, calls, sleeps, elapsed);
            e.elapsed >= elapsed + (e.sleeps - sleeps) * step
    decreases if elapsed <= timeout then timeout - elapsed + 1 else 0
  {
    if status == Running {
      var next := NextStatus(b, calls, status);
      var later := elapsed + step + b.Lag(sleeps);
      if later <= timeout {
        PollElapsed(b, step, timeout, next, calls + 1, sleeps + 1, later);
        var n := Poll(b, step, timeout, status, calls, sleeps, elapsed).sleeps - sleeps;
        assert n * step == (n - 1) * step + step;
      }
    }
  }

  /** `n` copies of `x`. */
  function Repeat<T>(x: T, n: nat): (r: seq<T>)
    ensures |r| == n
    ensures forall i | 0 <= i < n :: r[i] == x
  {
    if n == 0 then [] else Repeat(x, n - 1) + [x]
  }

  /** Copies of `x` run together. */
  lemma {:induction false} RepeatAdd<T>(x: T, m: nat, n: nat)
    ensures Repeat(x, m) + Repeat(x, n) == Repeat(x, m + n)
  {
    if n > 0 {
      RepeatAdd(x, m, n - 1);
      assert Repeat(x, m) + Repeat(x, n) == Repeat(x, m) + Repeat(x, n - 1) + [x];
    }
  }

  /** One more status request at the end of the log. */
  lemma LogGrows(sent: seq<Request>, query: Request, n: nat)
    ensures sent + Repeat(query, n) + [query] == sent + Repeat(query, n + 1)
  {
  }

  /** The log runWait leaves, built up request by request, is the run request
      followed by the status requests and the log requests. */
  lemma LogAfterPolling(sent: seq<Request>, submit: Request, query: Request, k: nat, logs: seq<Request>)
    ensures sent + [submit] + [query] + Repeat(query, k) + logs == sent + ([submit] + Repeat(query, k + 1) + logs)
  {
    RepeatAdd(query, 1, k);
    assert Repeat(query, 1) == [query];
  }

  /** The requests runWait sends, each built from its template. */
  function SubmitRequest(jobName: string, jobXml: string, sessionId: string): Request
  {
    RunRequest(RunAction(jobName), RunBody(jobXml, sessionId))
  }

  function StatusQuery(t: TemplateSet, sessionId: string, run: Submission): Request
  {
    StatusRequest(Fill(t.statusXml, sessionId, run.runId, run.repoName))
  }

  function ErrorLogQuery(t: TemplateSet, sessionId: string, run: Submission): Request
  {
    ErrorLogRequest(Fill(t.errorXml, sessionId, run.runId, run.repoName))
  }

  function TraceLogQuery(t: TemplateSet, sessionId: string, run: Submission): Request
  {
    TraceLogRequest(Fill(t.traceXml, sessionId, run.runId, run.repoName))
  }

  /** One call of runWait: its outcome, the requests it sent in order, and how
      many status requests, sleeps and seconds it took. */
  datatype Episode = Episode(outcome: Result<string>, requests: seq<Request>,
                             statusCalls: nat, sleeps: nat, elapsed: nat)

  /** runWait on a server that has already answered `calls` status requests and
      a clock that has already slept `sleeps` times. */
  function RunWaitEpisode(t: TemplateSet, b: Behaviour, jobName: string, jobXml: string, sessionId: string,
                          step: nat, timeout: int, calls: nat, sleeps: nat): (e: Episode)
    requires step > 0
  {
    var submit := SubmitRequest(jobName, jobXml, sessionId);
    match b.submission
    case None => Episode(Err(RemoteFailure), [submit], 0, 0, 0)
    case Some(run) =>
      if run.runId == "" then Episode(Err(NotRun), [submit], 0, 0, 0)
      else
        var query := StatusQuery(t, sessionId, run);
        match b.Answer(calls)
        case None => Episode(Err(RemoteFailure), [submit, query], 1, 0, 0)
        case Some(first) =>
          var p := Poll(b, step, timeout, first, calls + 1, sleeps, 0);
          var v := Verdict(t, b, sessionId, run, p, timeout);
          Episode(v.outcome, [submit] + Repeat(query, p.calls - calls) + v.logRequests,
                  p.calls - calls, p.sleeps - sleeps, p.elapsed)
  }

  /** How runWait ends once polling has: its outcome and the log requests it
      sends for it. */
  datatype Ending = Ending(outcome: Result<string>, logRequests: seq<Request>)

  /** sap_ds_job_api.py:274-281: a timeout, or the error log after status
      "error", or the trace log after any other final status. */
  function Verdict(t: TemplateSet, b: Behaviour, sessionId: string, run: Submission, p: PollEnd, timeout: int): (e: Ending)
    // one log request exactly when polling did not time out
    ensures |e.logRequests| <= 1 && (e.logRequests == [] <==> p.TimedOut?)
    ensures p.TimedOut? <==> e.outcome == Err(Timeout(timeout))
    // the trace log is returned only after a final status other than "error"
    ensures e.outcome.Ok? ==> p.Finished? && p.status != ErrorStatus && b.traceLog == Some(e.outcome.value)
  {
    if p.TimedOut? then Ending(Err(Timeout(timeout)), [])
    else if p.status == ErrorStatus then
      Ending(match b.errorLog case Some(log) => Err(JobFailed(log)) case None => Err(RemoteFailure),
             [ErrorLogQuery(t, sessionId, run)])
    else
      Ending(match b.traceLog case Some(trace) => Ok(trace) case None => Err(RemoteFailure),
             [TraceLogQuery(t, sessionId, run)])
  }

  /** Once the first status request has answered, the episode is the
      verdict on polling from that answer. */
  lemma EpisodeAfterFirstStatus(t: TemplateSet, b: Behaviour, jobName: string, jobXml: string, sessionId: string,
                                step: nat, timeout: int, calls: nat, sleeps: nat)
    requires step > 0 && Polled(b, calls)
    ensures var run := b.submission.value;
            var p := Poll(b, step, timeout, b.Answer(calls).value, calls + 1, sleeps, 0);
            var v := Verdict(t, b, sessionId, run, p, timeout);
            var polled := [SubmitRequest(jobName, jobXml, sessionId)] + Repeat(StatusQuery(t, sessionId, run), p.calls - calls);
            RunWaitEpisode(t, b, jobName, jobXml, sessionId, step, timeout, calls, sleeps)
              == Episode(v.outcome, polled + v.logRequests, p.calls - calls, p.sleeps - sleeps, p.elapsed)
  {
  }

  /** Whether runWait got past the run request and the first status request. */
  predicate Polled(b: Behaviour, calls: nat)
  {
    b.submission.Some? && b.submission.value.runId != "" && b.Answer(calls).Some?
  }

  // ---------------------------------------------------------------------------
  // The loop

  /** A failed status request inside the loop is retried: the loop goes on with
      the status it had. */
  lemma FailedQueryKeepsPolling(b: Behaviour, step: nat, timeout: int, calls: nat, sleeps: nat, elapsed: nat)
    requires step > 0 && b.Answer(calls).None?
    requires elapsed + step + b.Lag(sleeps) <= timeout
    ensures Poll(b, step, timeout, Running, calls, sleeps, elapsed)
         == Poll(b, step, timeout, Running, calls + 1, sleeps + 1, elapsed + step + b.Lag(sleeps))
  {
  }

  /** The deadline is strict: an iteration that ends exactly on the timeout
      polls again. */
  lemma DeadlineIsStrict(b: Behaviour, step: nat, timeout: int, calls: nat, sleeps: nat, elapsed: nat)
    requires step > 0 && b.Answer(calls) == Some(Running)
    requires elapsed + step + b.Lag(sleeps) == timeout
    ensures Poll(b, step, timeout, Running, calls, sleeps, elapsed).sleeps > sleeps + 1
  {
    var later := elapsed + step + b.Lag(sleeps);
    assert Poll(b, step, timeout, Running, calls, sleeps, elapsed)
        == Poll(b, step, timeout, Running, calls + 1, sleeps + 1, later);
  }

  /** The timeout check comes after the sleep and ignores the status just read:
      a job that finishes in the iteration that crosses the deadline is still
      reported as timed out. */
  lemma DeadlineBeatsFinalStatus(b: Behaviour, step: nat, timeout: int, calls: nat, sleeps: nat, elapsed: nat, final: string)
    requires step > 0 && b.Answer(calls) == Some(final) && final != Running
    requires elapsed + step + b.Lag(sleeps) > timeout
    ensures Poll(b, step, timeout, Running, calls, sleeps, elapsed).TimedOut?
  {
  }

  /** Every sleep but the last ends within the timeout, so the loop sleeps at
      most one time more than the timeout holds steps. */
  lemma {:induction false} PollIterationBound(b: Behaviour, step: nat, timeout: int, status: string,
                                              calls: nat, sleeps: nat, elapsed: nat)
    requires step > 0
    ensures var n := Poll(b, step, timeout, status, calls, sleeps, elapsed).sleeps - sleeps;
            n <= 1 || (n - 1) * step <= timeout - elapsed
    decreases if elapsed <= timeout then timeout - elapsed + 1 else 0
  {
    if status == Running {
      var next := NextStatus(b, calls, status);
      var later := elapsed + step + b.Lag(sleeps);
      if later <= timeout {
        PollIterationBound(b, step, timeout, next, calls + 1, sleeps + 1, later);
        var n := Poll(b, step, timeout, status, calls, sleeps, elapsed).sleeps - sleeps;
        assert n >= 1;
        assert (n - 1) * step == (n - 2) * step + step;
      }
    }
  }

  /** If k steps fit in t seconds, k is at most t / step. */
  lemma StepsFit(k: nat, step: nat, t: int)
    requires step > 0 && t >= 0 && k * step <= t
    ensures k <= t / step
  {
    var q := t / step;
    assert t < (q + 1) * step;
    assert k * step < (q + 1) * step;
  }

  /** However the job and the clock behave, runWait sleeps at most
      timeout / step + 1 times, and so sends at most timeout / step + 2 status
      requests. */
  lemma IterationsWithinDeadline(t: TemplateSet, b: Behaviour, jobName: string, jobXml: string, sessionId: string,
                                 step: nat, timeout: int, calls: nat, sleeps: nat)
    requires step > 0
    ensures var e := RunWaitEpisode(t, b, jobName, jobXml, sessionId, step, timeout, calls, sleeps);
            e.sleeps <= (if timeout >= 0 then timeout / step else 0) + 1 &&
            e.statusCalls <= e.sleeps + 1
  {
    if Polled(b, calls) {
      var first := b.Answer(calls).value;
      var p := Poll(b, step, timeout, first, calls + 1, sleeps, 0);
      PollIterationBound(b, step, timeout, first, calls + 1, sleeps, 0);
      var n := p.sleeps - sleeps;
      if n > 1 {
        StepsFit(n - 1, step, timeout);
      }
    }
  }

  // ---------------------------------------------------------------------------
  // runWait as a whole

  /** The guard of getStatus: without a run id runWait stops after the run
      request, before any status request. */
  lemma GuardStopsWithoutRunId(t: TemplateSet, b: Behaviour, jobName: string, jobXml: string, sessionId: string,
                               step: nat, timeout: int, calls: nat, sleeps: nat)
    requires step > 0 && b.submission.Some? && b.submission.value.runId == ""
    ensures var e := RunWaitEpisode(t, b, jobName, jobXml, sessionId, step, timeout, calls, sleeps);
            e.outcome == Err(NotRun) && e.requests == [SubmitRequest(jobName, jobXml, sessionId)] &&
            e.statusCalls == 0 && e.sleeps == 0
  {
  }

  /** A first status other than "running" decides the outcome without a sleep:
      "error" fetches the error log and reports it, anything else fetches the
      trace log and returns it. */
  lemma FirstStatusDecides(t: TemplateSet, b: Behaviour, jobName: string, jobXml: string, sessionId: string,
                           step: nat, timeout: int, calls: nat, sleeps: nat)
    requires step > 0 && Polled(b, calls) && b.Answer(calls).value != Running
    requires b.errorLog.Some? && b.traceLog.Some?
    ensures var e := RunWaitEpisode(t, b, jobName, jobXml, sessionId, step, timeout, calls, sleeps);
            var run := b.submission.value;
            e.sleeps == 0 && e.statusCalls == 1 && e.elapsed == 0 &&
            if b.Answer(calls).value == ErrorStatus then
              e.outcome == Err(JobFailed(b.errorLog.value)) &&
              e.requests == [SubmitRequest(jobName, jobXml, sessionId), StatusQuery(t, sessionId, run), ErrorLogQuery(t, sessionId, run)]
            else
              e.outcome == Ok(b.traceLog.value) &&
              e.requests == [SubmitRequest(jobName, jobXml, sessionId), StatusQuery(t, sessionId, run), TraceLogQuery(t, sessionId, run)]
  {
    var run := b.submission.value;
    assert Repeat(StatusQuery(t, sessionId, run), 1) == [StatusQuery(t, sessionId, run)];
  }

  /** The order of the requests: the run request once and first, then one
      status request per status call, all for the run the run request
      returned, then one log request exactly when polling ended on a final
      status. */
  lemma RequestOrder(t: TemplateSet, b: Behaviour, jobName: string, jobXml: string, sessionId: string,
                     step: nat, timeout: int, calls: nat, sleeps: nat)
    requires step > 0
    ensures var e := RunWaitEpisode(t, b, jobName, jobXml, sessionId, step, timeout, calls, sleeps);
            |e.requests| == 1 + e.statusCalls + (if Polled(b, calls) && e.outcome != Err(Timeout(timeout)) then 1 else 0) &&
            e.requests[0] == SubmitRequest(jobName, jobXml, sessionId) &&
            forall i | 1 <= i <= e.statusCalls ::
              b.submission.Some? && e.requests[i] == StatusQuery(t, sessionId, b.submission.value)
  {
  }

  /** A job whose first status is "running" and whose later status requests
      all fail or answer "running" is reported as timed out, however the
      clock behaves. */
  lemma StaysRunningTimesOut(t: TemplateSet, b: Behaviour, jobName: string, jobXml: string, sessionId: string,
                             step: nat, timeout: int, calls: nat, sleeps: nat)
    requires step > 0 && Polled(b, calls) && b.Answer(calls) == Some(Running)
    requires forall k | k > calls :: b.Answer(k) == None || b.Answer(k) == Some(Running)
    ensures RunWaitEpisode(t, b, jobName, jobXml, sessionId, step, timeout, calls, sleeps).outcome == Err(Timeout(timeout))
  {
    StaysRunningPolls(b, step, timeout, calls + 1, sleeps, 0);
  }

  /** The loop part of StaysRunningTimesOut. */
  lemma StaysRunningPolls(b: Behaviour, step: nat, timeout: int, calls: nat, sleeps: nat, elapsed: nat)
    requires step > 0
    requires forall k | k >= calls :: b.Answer(k) == None || b.Answer(k) == Some(Running)
    ensures Poll(b, step, timeout, Running, calls, sleeps, elapsed).TimedOut?
  {
    PollStatusFromServer(b, step, timeout, Running, calls, sleeps, elapsed);
    PollEnds(b, step, timeout, Running, calls, sleeps, elapsed);
  }

  /** runWait returns a value exactly when it got a run id and a first status,
      polling ended on a final status other than "error" and the trace log
      could be fetched; the value is that trace log. */
  lemma SucceedsOnlyWithTrace(t: TemplateSet, b: Behaviour, jobName: string, jobXml: string, sessionId: string,
                              step: nat, timeout: int, calls: nat, sleeps: nat)
    requires step > 0
    ensures var e := RunWaitEpisode(t, b, jobName, jobXml, sessionId, step, timeout, calls, sleeps);
            (e.outcome.Ok? <==>
               Polled(b, calls) && b.traceLog.Some? &&
               var p := Poll(b, step, timeout, b.Answer(calls).value, calls + 1, sleeps, 0);
               p.Finished? && p.status != ErrorStatus) &&
            (e.outcome.Ok? ==> e.outcome.value == b.traceLog.value)
  {
  }

  /** The outcome is decided by the last status polled: a timeout only when the
      clock went past the timeout, the error log only after status "error", the
      trace log only after another final status. */
  lemma OutcomeMatchesLastStatus(t: TemplateSet, b: Behaviour, jobName: string, jobXml: string, sessionId: string,
                                 step: nat, timeout: int, calls: nat, sleeps: nat)
    requires step > 0 && Polled(b, calls)
    ensures var e := RunWaitEpisode(t, b, jobName, jobXml, sessionId, step, timeout, calls, sleeps);
            var p := Poll(b, step, timeout, b.Answer(calls).value, calls + 1, sleeps, 0);
            e.statusCalls == e.sleeps + 1 &&
            e.elapsed >= e.sleeps * step &&
            (e.outcome == Err(Timeout(timeout)) <==> p.TimedOut?) &&
            (p.TimedOut? ==> e.elapsed > timeout && e.sleeps >= 1) &&
            (p.Finished? ==> p.status != Running && (e.sleeps == 0 || e.elapsed <= timeout)) &&
            (p.Finished? && p.status == ErrorStatus ==>
               e.requests[|e.requests| - 1] == ErrorLogQuery(t, sessionId, b.submission.value) &&
               e.outcome == (match b.errorLog case Some(log) => Err(JobFailed(log)) case None => Err(RemoteFailure))) &&
            (p.Finished? && p.status != ErrorStatus ==>
               e.requests[|e.requests| - 1] == TraceLogQuery(t, sessionId, b.submission.value) &&
               e.outcome == (match b.traceLog case Some(trace) => Ok(trace) case None => Err(RemoteFailure)))
  {
    PollEnds(b, step, timeout, b.Answer(calls).value, calls + 1, sleeps, 0);
    PollElapsed(b, step, timeout, b.Answer(calls).value, calls + 1, sleeps, 0);
  }

  // ---------------------------------------------------------------------------
  // Worked examples

  /** A server that accepts the run as run "42" of repository "Repo", answers
      the status requests in turn from `answers` (None: that request fails) and
      then keeps giving the last answer, and has both logs ready; the clock
      never lags. */
  function Scripted(answers: seq<Option<string>>): Behaviour
  {
    Behaviour(Some(Submission("42", "Repo")), answers, Some("E"), Some("T"), [])
  }

  /** running, running, then a final status: the trace log, after two status
      requests beyond the first. */
  lemma RunningThenDone(t: TemplateSet)
    ensures var e := RunWaitEpisode(t, Scripted([Some(Running), Some(Running), Some("done")]),
                                    "Job", "<job/>", "S", 60, 3600, 0, 0);
            e.outcome == Ok("T") && e.statusCalls == 3 && e.sleeps == 2 && e.elapsed == 120
  {
    var b := Scripted([Some(Running), Some(Running), Some("done")]);
    assert Poll(b, 60, 3600, Running, 1, 0, 0) == Poll(b, 60, 3600, Running, 2, 1, 60);
    assert Poll(b, 60, 3600, Running, 2, 1, 60) == Poll(b, 60, 3600, "done", 3, 2, 120);
  }

  /** "error" at once: the error log, without a sleep. */
  lemma ImmediateError(t: TemplateSet)
    ensures var e := RunWaitEpisode(t, Scripted([Some(ErrorStatus)]), "Job", "<job/>", "S", 60, 3600, 0, 0);
            e.outcome == Err(JobFailed("E")) && e.statusCalls == 1 && e.sleeps == 0 && e.elapsed == 0
  {
  }

  /** running, running, then "error": the error log, after two status
      requests beyond the first. */
  lemma RunningThenError(t: TemplateSet)
    ensures var e := RunWaitEpisode(t, Scripted([Some(Running), Some(Running), Some(ErrorStatus)]),
                                    "Job", "<job/>", "S", 60, 3600, 0, 0);
            e.outcome == Err(JobFailed("E")) && e.statusCalls == 3 && e.sleeps == 2
  {
    var b := Scripted([Some(Running), Some(Running), Some(ErrorStatus)]);
    assert Poll(b, 60, 3600, Running, 1, 0, 0) == Poll(b, 60, 3600, Running, 2, 1, 60);
    assert Poll(b, 60, 3600, Running, 2, 1, 60) == Poll(b, 60, 3600, ErrorStatus, 3, 2, 120);
  }

  /** A status request that fails between two "running" answers is retried and
      the final status after it is observed. */
  lemma TransientFailure(t: TemplateSet)
    ensures var e := RunWaitEpisode(t, Scripted([Some(Running), None, Some("done")]),
                                    "Job", "<job/>", "S", 60, 3600, 0, 0);
            e.outcome == Ok("T") && e.statusCalls == 3 && e.sleeps == 2
  {
    var b := Scripted([Some(Running), None, Some("done")]);
    assert Poll(b, 60, 3600, Running, 1, 0, 0) == Poll(b, 60, 3600, Running, 2, 1, 60);
    assert Poll(b, 60, 3600, Running, 2, 1, 60) == Poll(b, 60, 3600, "done", 3, 2, 120);
  }

  /** A job that stays "running" with a timeout of 120 s polled every 60 s: the
      loop polls three times and gives up at 180 s, because the deadline check
      is strict and 120 is not past 120. */
  lemma TimeoutAfterThreePolls(t: TemplateSet)
    ensures var e := RunWaitEpisode(t, Scripted([Some(Running)]), "Job", "<job/>", "S", 60, 120, 0, 0);
            e.outcome == Err(Timeout(120)) && e.statusCalls == 4 && e.sleeps == 3 && e.elapsed == 180
  {
    var b := Scripted([Some(Running)]);
    assert Poll(b, 60, 120, Running, 1, 0, 0) == Poll(b, 60, 120, Running, 2, 1, 60);
    assert Poll(b, 60, 120, Running, 2, 1, 60) == Poll(b, 60, 120, Running, 3, 2, 120);
    assert Poll(b, 60, 120, Running, 3, 2, 120) == TimedOut(4, 3, 180);
  }

  /** The same job when one second goes on the network before the first
      sleep ends: the second loop poll already ends past 120 s, so runWait
      gives up at 121 s after two polls beyond the first. */
  lemma TimeoutAfterTwoPollsWhenLate(t: TemplateSet)
    ensures var b := Behaviour(Some(Submission("42", "Repo")), [Some(Running)], Some("E"), Some("T"), [1]);
            var e := RunWaitEpisode(t, b, "Job", "<job/>", "S", 60, 120, 0, 0);
            e.outcome == Err(Timeout(120)) && e.statusCalls == 3 && e.sleeps == 2 && e.elapsed == 121
  {
    var b := Behaviour(Some(Submission("42", "Repo")), [Some(Running)], Some("E"), Some("T"), [1]);
    assert Poll(b, 60, 120, Running, 1, 0, 0) == Poll(b, 60, 120, Running, 2, 1, 61);
  }

  // ---------------------------------------------------------------------------
  // The elapsed time as sap_ds_job_api.py:270 reads it

  /** timedelta.seconds: the seconds part of a duration, its whole days left out. */
  function SecondsField(elapsed: nat): (s: nat)
    ensures s < 86400
    ensures elapsed < 86400 ==> s == elapsed
  {
    elapsed % 86400
  }

  /** The deadline test at sap_ds_job_api.py:271 on the seconds field. */
  predicate TimesOutAsWritten(elapsed: nat, timeout: int)
  {
    SecondsField(elapsed) > timeout
  }

  /** As written, a timeout of 86399 s or more never fires, however long the
      job runs. */
  lemma AsWrittenMissesDeadline(elapsed: nat, timeout: int)
    requires timeout >= 86399
    ensures !TimesOutAsWritten(elapsed, timeout)
  {
  }

  /** As written, a shorter timeout is missed whenever an iteration ends a
      whole number of days plus at most the timeout after submission: the time
      is past the deadline but its seconds field is not. */
  lemma AsWrittenMissesLateDeadline(elapsed: nat, timeout: int)
    requires timeout < 86400 && elapsed >= 86400 && elapsed % 86400 <= timeout
    ensures elapsed > timeout && !TimesOutAsWritten(elapsed, timeout)
  {
  }
}
