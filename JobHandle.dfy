/** The DSJob class of sap_ds_job_api.py:201-284: one job on one logged-on
    session, its run id once it runs, and the polling that waits for it. */
module JobHandle {
  import opened Templates
  import opened Remote
  import opened Polling

  class DSJob {
    /** The request templates inherited from DSJobApi. */
    const templates: TemplateSet
    const jobName: string
    const jobXml: string
    var host: string
    var sessionId: string
    /** The run id and repository name of the last run; "" before any run. */
    var runId: string
    var repoName: string
    var stepSeconds: nat
    var timeoutSeconds: int

    ghost predicate Valid()
      reads this
    {
      stepSeconds > 0
    }

    /** The handle right after the logon in __init__, with the host and session
        id the logon returned. */
    constructor (host: string, sessionId: string, jobName: string, jobXml: string)
      ensures Valid() && templates == SourceTemplates
      ensures this.host == host && this.sessionId == sessionId
      ensures this.jobName == jobName && this.jobXml == jobXml
      ensures runId == "" && repoName == ""
      ensures stepSeconds == DefaultStepSeconds && timeoutSeconds == DefaultTimeoutSeconds
    {
      templates := SourceTemplates;
      this.host, this.sessionId := host, sessionId;
      this.jobName, this.jobXml := jobName, jobXml;
      runId, repoName := "", "";
      stepSeconds, timeoutSeconds := DefaultStepSeconds, DefaultTimeoutSeconds;
    }

    /** Submits the job on this session and keeps the run id and repository
        name the server returns; on a failed request the handle is unchanged. */
    method Run(server: Server) returns (ok: bool)
      modifies this`runId, this`repoName, server`sent
      ensures server.sent == old(server.sent) + [SubmitRequest(jobName, jobXml, sessionId)]
      ensures ok <==> server.behaviour.submission.Some?
      ensures ok ==> runId == server.behaviour.submission.value.runId &&
                     repoName == server.behaviour.submission.value.repoName
      ensures !ok ==> runId == old(runId) && repoName == old(repoName)
    {
      var request := SubmitRequest(jobName, jobXml, sessionId);
      var answer := server.PostRun(request.action, request.body);
      match answer
      case None =>
        ok := false;
      case Some(run) =>
        runId, repoName := run.runId, run.repoName;
        ok := true;
    }

    /** The status of the current run. Without a run id it fails with NotRun
        and sends nothing. */
    method GetStatus(server: Server) returns (r: Result<string>)
      modifies server`sent, server`statusCalls
      ensures runId == "" ==> r == Err(NotRun) && server.sent == old(server.sent) &&
                              server.statusCalls == old(server.statusCalls)
      ensures runId != "" ==>
                server.sent == old(server.sent) + [StatusQuery(templates, sessionId, Submission(runId, repoName))] &&
                server.statusCalls == old(server.statusCalls) + 1 &&
                r == match server.behaviour.Answer(old(server.statusCalls))
                     case Some(status) => Ok(status)
                     case None => Err(RemoteFailure)
    {
      if runId == "" {
        return Err(NotRun);
      }
      var answer := server.PostStatus(StatusQuery(templates, sessionId, Submission(runId, repoName)).body);
      match answer
      case None =>
        r := Err(RemoteFailure);
      case Some(status) =>
        r := Ok(status);
    }

    /** Runs the job and polls its status every stepSeconds until it leaves
        "running", then returns its trace log, or fails with its error log when
        the status is "error", or with Timeout once more than `timeout` seconds
        have passed since submission. Everything it sends and every sleep it
        takes is the episode RunWaitEpisode describes. */
    method RunWait(server: Server, timeout: int := DefaultTimeoutSeconds) returns (r: Result<string>)
      requires Valid()
      modifies this`timeoutSeconds, this`runId, this`repoName
      modifies server`sent, server`statusCalls, server`sleeps, server`now
      ensures Valid() && timeoutSeconds == timeout
      ensures var e := RunWaitEpisode(templates, server.behaviour, jobName, jobXml, sessionId, stepSeconds,
                                      timeout, old(server.statusCalls), old(server.sleeps));
              r == e.outcome &&
              server.sent == old(server.sent) + e.requests &&
              server.statusCalls == old(server.statusCalls) + e.statusCalls &&
              server.sleeps == old(server.sleeps) + e.sleeps &&
              server.now == old(server.now) + e.elapsed
      ensures server.behaviour.submission.Some? ==>
                runId == server.behaviour.submission.value.runId &&
                repoName == server.behaviour.submission.value.repoName
      ensures server.behaviour.submission.None? ==> runId == old(runId) && repoName == old(repoName)
    {
      timeoutSeconds := timeout;
      var start := server.now;
      ghost var sent0, calls0, sleeps0 := server.sent, server.statusCalls, server.sleeps;
      var ok := Run(server);
      if !ok {
        return Err(RemoteFailure);
      }
      var reply := GetStatus(server);
      if reply.Err? {
        if runId != "" {
          assert server.sent == sent0 + [SubmitRequest(jobName, jobXml, sessionId), StatusQuery(templates, sessionId, Submission(runId, repoName))];
        }
        return reply;
      }
      var end := Await(server, reply.value, start);
      ghost var b := server.behaviour;
      PollEnds(b, stepSeconds, timeout, reply.value, calls0 + 1, sleeps0, 0);
      EpisodeAfterFirstStatus(templates, b, jobName, jobXml, sessionId, stepSeconds, timeout, calls0, sleeps0);
      r := Finish(server, end);
      LogAfterPolling(sent0, SubmitRequest(jobName, jobXml, sessionId), StatusQuery(templates, sessionId, Submission(runId, repoName)),
                      end.calls - (calls0 + 1), Verdict(templates, b, sessionId, Submission(runId, repoName), end, timeout).logRequests);
    }

    /** The end of runWait once polling has ended at `end`: a timeout, or the
        error log after status "error", or the trace log after any other
        status. */
    method Finish(server: Server, end: PollEnd) returns (r: Result<string>)
      requires end.Finished? ==> end.status != Running
      modifies server`sent
      ensures var v := Verdict(templates, server.behaviour, sessionId, Submission(runId, repoName), end, timeoutSeconds);
              r == v.outcome && server.sent == old(server.sent) + v.logRequests
    {
      if end.TimedOut? {
        return Err(Timeout(timeoutSeconds));
      }
      // The source checks for "running" once more here; the loop has already
      // ruled it out, so that timeout can never be raised.
      assert end.status != Running;
      if end.status == ErrorStatus {
        var log := server.PostErrorLog(ErrorLogQuery(templates, sessionId, Submission(runId, repoName)).body);
        r := match log case Some(text) => Err(JobFailed(text)) case None => Err(RemoteFailure);
      } else {
        var trace := server.PostTraceLog(TraceLogQuery(templates, sessionId, Submission(runId, repoName)).body);
        r := match trace case Some(text) => Ok(text) case None => Err(RemoteFailure);
      }
    }

    /** The polling loop of runWait, entered with the first status `status`:
        while the job is "running", asks for its status again (a failed request
        keeps the old status), sleeps stepSeconds and stops once the seconds
        since `start` are past timeoutSeconds. Where the source raises the
        timeout inside the loop, the loop here ends with `late` set and Finish
        reports it. */
    method Await(server: Server, status: string, start: nat) returns (end: PollEnd)
      requires Valid() && runId != "" && server.now >= start
      modifies server`sent, server`statusCalls, server`sleeps, server`now
      ensures end == Poll(server.behaviour, stepSeconds, timeoutSeconds, status,
                          old(server.statusCalls), old(server.sleeps), old(server.now) - start)
      ensures server.statusCalls == end.calls && server.sleeps == end.sleeps
      ensures server.now == start + end.elapsed
      ensures server.sent == old(server.sent) +
                Repeat(StatusQuery(templates, sessionId, Submission(runId, repoName)), end.calls - old(server.statusCalls))
    {
      var current := status;
      var step, limit := stepSeconds, timeoutSeconds;
      var submitTime: nat := server.now - start;
      var late := false;
      ghost var b := server.behaviour;
      ghost var target := Poll(b, step, limit, status, server.statusCalls, server.sleeps, submitTime);
      ghost var query := StatusQuery(templates, sessionId, Submission(runId, repoName));
      ghost var sent0, calls0 := server.sent, server.statusCalls;
      ghost var n: nat := 0;
      while current == Running && !late
        invariant server.statusCalls == calls0 + n
        invariant server.sent == sent0 + Repeat(query, n)
        invariant server.now == start + submitTime
        invariant late ==> target == TimedOut(server.statusCalls, server.sleeps, submitTime)
        invariant !late ==> Poll(b, step, limit, current, server.statusCalls, server.sleeps, submitTime) == target
        decreases !late, if submitTime <= limit then limit - submitTime + 1 else 0
      {
        current, submitTime := PollOnce(server, current, start);
        LogGrows(sent0, query, n);
        n := n + 1;
        late := submitTime > limit;
      }
      if late {
        end := TimedOut(server.statusCalls, server.sleeps, submitTime);
      } else {
        end := Finished(current, server.statusCalls, server.sleeps, submitTime);
      }
    }

    /** One pass of the polling loop: asks for the status (a failed request
        keeps the old one), sleeps stepSeconds and reads the seconds since
        `start`; that is one step of Poll, or its timeout. */
    method PollOnce(server: Server, status: string, start: nat) returns (next: string, elapsed: nat)
      requires Valid() && runId != "" && status == Running && server.now >= start
      modifies server`sent, server`statusCalls, server`sleeps, server`now
      ensures server.statusCalls == old(server.statusCalls) + 1 && server.sleeps == old(server.sleeps) + 1
      ensures server.now == start + elapsed && elapsed >= old(server.now) - start + stepSeconds
      ensures server.sent == old(server.sent) + [StatusQuery(templates, sessionId, Submission(runId, repoName))]
      ensures var before := Poll(server.behaviour, stepSeconds, timeoutSeconds, status,
                                 old(server.statusCalls), old(server.sleeps), old(server.now) - start);
              if elapsed > timeoutSeconds then before == TimedOut(server.statusCalls, server.sleeps, elapsed)
              else before == Poll(server.behaviour, stepSeconds, timeoutSeconds, next, server.statusCalls, server.sleeps, elapsed)
    {
      next := status;
      var polled := GetStatus(server);
      if polled.Ok? {
        next := polled.value;
      }
      server.Sleep(stepSeconds);
      elapsed := server.now - start;
    }
  }
}
