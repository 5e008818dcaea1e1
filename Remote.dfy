/** The data-services job server and the wall clock, as DSJob sees them
    (sap_ds_job_api.py). The HTTP transport and the XML parsing of the answers
    are not modelled: the server is an oracle that answers the n-th request of a
    kind with a value fixed in advance, and records every request it is sent. */
module Remote {

  datatype Option<+T> = None | Some(value: T)

  /** The run id and repository name that a successful run request returns. */
  datatype Submission = Submission(runId: string, repoName: string)

  /** Everything the server and the clock will answer, fixed in advance. A run
      reads only finitely many answers, so a finite script whose last entry
      repeats for ever describes any run. */
  datatype Behaviour = Behaviour(
    // the answer to the run request; None when the request fails
    submission: Option<Submission>,
    // the answers to the status requests in order, the last one repeated for
    // ever after; None where that request fails
    statusAnswers: seq<Option<string>>,
    // the answers to the error-log and trace-log requests; None when they fail
    errorLog: Option<string>,
    traceLog: Option<string>,
    // how many seconds each sleep overruns its argument, the time spent on
    // the network since the previous sleep included; none after the script
    lags: seq<nat>)
  {
    /** The answer to the status request numbered n. */
    function Answer(n: nat): Option<string>
    {
      if n < |statusAnswers| then statusAnswers[n]
      else if statusAnswers == [] then None
      else statusAnswers[|statusAnswers| - 1]
    }

    /** The overrun of the sleep numbered n. */
    function Lag(n: nat): nat
    {
      if n < |lags| then lags[n] else 0
    }
  }

  /** A request posted to the server: the SOAPAction of the run request, which
      depends on the job, and the body of each. */
  datatype Request =
    | RunRequest(action: string, body: string)
    | StatusRequest(body: string)
    | ErrorLogRequest(body: string)
    | TraceLogRequest(body: string)

  class Server {
    const behaviour: Behaviour
    /** Every request posted so far, oldest first. */
    var sent: seq<Request>
    /** How many status requests have been answered: the next answer is Answer(statusCalls). */
    var statusCalls: nat
    /** How many sleeps have been taken. */
    var sleeps: nat
    /** The wall clock, in whole seconds. */
    var now: nat

    constructor (behaviour: Behaviour, now: nat)
      ensures this.behaviour == behaviour && this.now == now
      ensures sent == [] && statusCalls == 0 && sleeps == 0
    {
      this.behaviour := behaviour;
      this.now := now;
      sent, statusCalls, sleeps := [], 0, 0;
    }

    method PostRun(action: string, body: string) returns (answer: Option<Submission>)
      modifies this`sent
      ensures answer == behaviour.submission
      ensures sent == old(sent) + [RunRequest(action, body)]
    {
      answer := behaviour.submission;
      sent := sent + [RunRequest(action, body)];
    }

    method PostStatus(body: string) returns (answer: Option<string>)
      modifies this`sent, this`statusCalls
      ensures answer == behaviour.Answer(old(statusCalls))
      ensures statusCalls == old(statusCalls) + 1
      ensures sent == old(sent) + [StatusRequest(body)]
    {
      answer := behaviour.Answer(statusCalls);
      statusCalls := statusCalls + 1;
      sent := sent + [StatusRequest(body)];
    }

    method PostErrorLog(body: string) returns (text: Option<string>)
      modifies this`sent
      ensures text == behaviour.errorLog
      ensures sent == old(sent) + [ErrorLogRequest(body)]
    {
      text := behaviour.errorLog;
      sent := sent + [ErrorLogRequest(body)];
    }

    method PostTraceLog(body: string) returns (text: Option<string>)
      modifies this`sent
      ensures text == behaviour.traceLog
      ensures sent == old(sent) + [TraceLogRequest(body)]
    {
      text := behaviour.traceLog;
      sent := sent + [TraceLogRequest(body)];
    }

    /** time.sleep(seconds): the clock advances by at least `seconds`. */
    method Sleep(seconds: nat)
      modifies this`sleeps, this`now
      ensures now == old(now) + seconds + behaviour.Lag(old(sleeps))
      ensures sleeps == old(sleeps) + 1
    {
      now := now + seconds + behaviour.Lag(sleeps);
      sleeps := sleeps + 1;
    }
  }
}
