/** The request bodies and the run header of DSJobApi (sap_ds_job_api.py).
    Each body is a fixed SOAP envelope in which the placeholders $1, $2 and $3
    are replaced, with Python's str.replace, by the session id, the run id and
    the repository name. */
module Templates {

  /** str.replace(token, value) for a non-empty token: scans left to right and
      replaces every non-overlapping occurrence; the inserted value is never
      scanned again. */
  function Replace(s: string, token: string, value: string): string
    requires token != []
    decreases |s|
  {
    if |s| < |token| then s
    else if s[..|token|] == token then value + Replace(s[|token|..], token, value)
    else [s[0]] + Replace(s[1..], token, value)
  }

  /** `token` occurs somewhere in `s`. */
  predicate Contains(s: string, token: string)
    decreases |s|
  {
    |token| <= |s| && (s[..|token|] == token || Contains(s[1..], token))
  }

  const SessionToken := "$1"
  const RunToken := "$2"
  const RepoToken := "$3"

  // The envelope text is spelled as short literals joined by +; the value is
  // the exact text of the templates, newlines and indentation included.

  /** Everything before $1: the envelope, the header and the opening SessionID tag. */
  const SessionOpen := EnvelopeStart + ServerNamespace + SessionHeader
  const EnvelopeStart :=
    "<soapenv:Envelope" + " xmlns:soapenv=" + "\"http://schemas" + ".xmlsoap.org/" + "soap/envelope/\""
  const ServerNamespace :=
    " xmlns:ser=\"http:" + "//www.business" + "objects.com/" + "DataServices/" + "ServerX.xsd\">\n"
  const SessionHeader :=
    "           " + "<soapenv:Header>\n" + "              " + "<ser:session>\n" + "                 " + "<SessionID>"

  /** From the closing SessionID tag to the opening tag of the body element. */
  const SessionClose := HeaderClose + BodyOpen
  const HeaderClose :=
    "</SessionID>\n" + "              " + "</ser:session>\n" + "           " + "</soapenv:" + "Header>\n"
  const BodyOpen := "           " + "<soapenv:Body>\n" + "              " + "<ser:"

  const RunOpen := ">\n" + "                 " + "<runID>"
  const RunClose := "</runID>\n" + "                 " + "<repoName>"
  const RepoClose := "</repoName>\n" + "              " + "</ser:"
  const EnvelopeClose := ">\n" + "           " + "</soapenv:Body>\n" + "        " + "</soapenv:" + "Envelope>"

  /** The body element names of status_xml, error_xml and trace_xml. */
  const StatusOperation := "batchJobStatus" + "Request"
  const ErrorLogOperation := "ErrorLogRequest"
  const TraceLogOperation := "TraceLogRequest"

  /** status_xml, error_xml and trace_xml differ only in the name of the body
      element, which stands in QueryMiddle and QueryEnd. */
  function QueryXml(operation: string): string
  {
    SessionOpen + (SessionToken + (QueryMiddle(operation) + (RunToken + (RunClose + (RepoToken + QueryEnd(operation))))))
  }

  /** From the closing SessionID tag to the opening runID tag. */
  function QueryMiddle(operation: string): string
  {
    SessionClose + operation + RunOpen
  }

  /** From the closing repoName tag to the end of the envelope. */
  function QueryEnd(operation: string): string
  {
    RepoClose + operation + EnvelopeClose
  }

  const StatusXml := QueryXml(StatusOperation)
  const ErrorXml := QueryXml(ErrorLogOperation)
  const TraceXml := QueryXml(TraceLogOperation)

  const LogoutClose :=
    "Logout_Input/>\n" + "           " + "</soapenv:Body>\n" + "        " + "</soapenv:" + "Envelope>"
  const LogoutXml := SessionOpen + (SessionToken + (SessionClose + LogoutClose))

  /** The templates DSJobApi keeps as attributes (sap_ds_job_api.py:15-70). */
  datatype TemplateSet = TemplateSet(statusXml: string, errorXml: string, traceXml: string, logoutXml: string)

  const SourceTemplates := TemplateSet(StatusXml, ErrorXml, TraceXml, LogoutXml)

  /** The chain template.replace("$1", session).replace("$2", run).replace("$3", repo). */
  function Fill(template: string, sessionId: string, runId: string, repoName: string): string
  {
    Replace(Replace(Replace(template, SessionToken, sessionId), RunToken, runId), RepoToken, repoName)
  }

  /** The body of a status, error-log or trace-log request. */
  function QueryBody(operation: string, sessionId: string, runId: string, repoName: string): string
  {
    Fill(QueryXml(operation), sessionId, runId, repoName)
  }

  /** The body of the logout request: only $1 is replaced. */
  function LogoutBody(sessionId: string): string
  {
    Replace(LogoutXml, SessionToken, sessionId)
  }

  /** The body of the run request: the caller's job XML with only $1 replaced. */
  function RunBody(jobXml: string, sessionId: string): string
  {
    Replace(jobXml, SessionToken, sessionId)
  }

  /** The SOAPAction header value of the run request. */
  function RunAction(jobName: string): string
  {
    "\"job=" + jobName + "\""
  }

  // ---------------------------------------------------------------------------
  // Properties of Replace

  /** Where the token does not occur, replacing it changes nothing. */
  lemma {:induction false} ReplaceAbsent(s: string, token: string, value: string)
    requires token != [] && !Contains(s, token)
    ensures Replace(s, token, value) == s
    decreases |s|
  {
    if |token| <= |s| {
      ReplaceAbsent(s[1..], token, value);
    }
  }

  /** Replacing a token by itself is the identity. */
  lemma {:induction false} ReplaceSelf(s: string, token: string)
    requires token != []
    ensures Replace(s, token, token) == s
    decreases |s|
  {
    if |s| < |token| {
    } else if s[..|token|] == token {
      ReplaceSelf(s[|token|..], token);
      assert s == token + s[|token|..];
    } else {
      ReplaceSelf(s[1..], token);
      assert s == [s[0]] + s[1..];
    }
  }

  /** A string without the token's first character does not contain the token. */
  lemma {:induction false} NotContainsWithoutLead(s: string, token: string)
    requires token != [] && token[0] !in s
    ensures !Contains(s, token)
    decreases |s|
  {
    if |token| <= |s| {
      assert s[..|token|][0] == s[0];
      NotContainsWithoutLead(s[1..], token);
    }
  }

  /** Replace distributes over a concatenation when no occurrence can straddle
      the seam: either `x` holds no character that starts the token, or `y` does
      not start with a character of the token other than its first. */
  lemma {:induction false} ReplaceAppend(x: string, y: string, token: string, value: string)
    requires token != []
    requires token[0] !in x || y == [] || y[0] !in token[1..]
    ensures Replace(x + y, token, value) == Replace(x, token, value) + Replace(y, token, value)
    decreases |x|, 1
  {
    if x == [] {
      assert x + y == y;
    } else if |x| >= |token| {
      ReplaceAppendLong(x, y, token, value);
    } else {
      ReplaceAppendShort(x, y, token, value);
    }
  }

  /** ReplaceAppend when `x` is at least as long as the token: the scans of
      x + y and of x agree on the first step. */
  lemma {:induction false} ReplaceAppendLong(x: string, y: string, token: string, value: string)
    requires token != [] && |x| >= |token|
    requires token[0] !in x || y == [] || y[0] !in token[1..]
    ensures Replace(x + y, token, value) == Replace(x, token, value) + Replace(y, token, value)
    decreases |x|, 0
  {
    var s := x + y;
    assert s[..|token|] == x[..|token|];
    if x[..|token|] == token {
      assert s[|token|..] == x[|token|..] + y;
      ReplaceAppend(x[|token|..], y, token, value);
    } else {
      assert s[1..] == x[1..] + y;
      ReplaceAppend(x[1..], y, token, value);
    }
  }

  /** ReplaceAppend when `x` is shorter than the token: no occurrence starts
      inside x, so its first character is kept. */
  lemma {:induction false} ReplaceAppendShort(x: string, y: string, token: string, value: string)
    requires token != [] && 0 < |x| < |token|
    requires token[0] !in x || y == [] || y[0] !in token[1..]
    ensures Replace(x + y, token, value) == Replace(x, token, value) + Replace(y, token, value)
    decreases |x|, 0
  {
    var s := x + y;
    assert s[1..] == x[1..] + y;
    ReplaceAppend(x[1..], y, token, value);
    if |s| >= |token| {
      assert s[..|token|] != token by {
        if token[0] !in x {
          assert s[..|token|][0] == x[0] && x[0] in x;
        } else {
          assert s[..|token|][|x|] == y[0];
          assert token[|x|] == token[1..][|x| - 1];
        }
      }
    }
  }

  // ---------------------------------------------------------------------------
  // Properties of the bodies

  /** The fixed parts of the templates contain no '$', so no placeholder other
      than the three marked ones, and each part after a placeholder starts a tag. */
  lemma FixedPartsFree(operation: string)
    requires '$' !in operation
    ensures '$' !in SessionOpen && '$' !in QueryMiddle(operation)
    ensures '$' !in RunClose && '$' !in QueryEnd(operation)
    ensures '$' !in SessionClose + LogoutClose
    ensures QueryMiddle(operation)[0] == RunClose[0] == QueryEnd(operation)[0] == '<'
    ensures (SessionClose + LogoutClose)[0] == '<'
  {
    SessionOpenFree();
    SessionCloseFree();
    LogoutCloseFree();
    assert '$' !in RunOpen;
    assert '$' !in RunClose;
    assert '$' !in RepoClose;
    assert '$' !in EnvelopeClose;
  }

  lemma SessionOpenFree() ensures '$' !in SessionOpen
  {
    EnvelopeStartFree();
    ServerNamespaceFree();
    SessionHeaderFree();
  }

  lemma SessionCloseFree() ensures '$' !in SessionClose
  {
    HeaderCloseFree();
    BodyOpenFree();
  }

  lemma EnvelopeStartFree() ensures '$' !in EnvelopeStart {}
  lemma ServerNamespaceFree() ensures '$' !in ServerNamespace {}
  lemma SessionHeaderFree() ensures '$' !in SessionHeader {}
  lemma HeaderCloseFree() ensures '$' !in HeaderClose {}
  lemma BodyOpenFree() ensures '$' !in BodyOpen {}
  lemma LogoutCloseFree() ensures '$' !in LogoutClose {}

  /** A string that starts with the token: the value, then the rest rewritten. */
  lemma ReplaceLeading(token: string, rest: string, value: string)
    requires token != []
    ensures Replace(token + rest, token, value) == value + Replace(rest, token, value)
  {
    assert (token + rest)[..|token|] == token && (token + rest)[|token|..] == rest;
  }

  /** Replacing a placeholder inside another placeholder: itself becomes the
      value, a different one is kept. */
  lemma PlaceholderReplace(t: string, u: string, value: string)
    requires |t| == 2 && |u| == 2
    ensures Replace(t, u, value) == if t == u then value else t
  {
    assert t[..2] == t;
    if t == u {
      assert t[2..] == [];
    } else {
      assert t[1..] == [t[1]];
      assert [t[0]] + [t[1]] == t;
    }
  }

  /** `s` has no '$', so no placeholder: replacing one leaves it as it is. */
  lemma FreeUnchanged(s: string, token: string, value: string)
    requires token != [] && token[0] == '$' && '$' !in s
    ensures Replace(s, token, value) == s
  {
    NotContainsWithoutLead(s, token);
    ReplaceAbsent(s, token, value);
  }

  /** A placeholder between a fixed part without '$' and a rest that starts a
      tag: the fixed part is kept, the placeholder and the rest are rewritten on
      their own. */
  lemma ReplaceSeam(fixed: string, x: string, rest: string, token: string, value: string)
    requires |token| == 2 && token[0] == '$' && token[1] != '<'
    requires '$' !in fixed && (rest == [] || rest[0] == '<')
    ensures Replace(fixed + (x + rest), token, value) ==
      fixed + (Replace(x, token, value) + Replace(rest, token, value))
  {
    ReplaceAppend(x, rest, token, value);
    ReplaceAppend(fixed, x + rest, token, value);
    FreeUnchanged(fixed, token, value);
  }

  /** One replacement over a query template whose placeholders stand at x, y and z. */
  lemma ReplaceInQuery(operation: string, x: string, y: string, z: string, token: string, value: string)
    requires '$' !in operation
    requires |token| == 2 && token[0] == '$' && token[1] != '<'
    ensures
      var r := s => Replace(s, token, value);
      r(SessionOpen + (x + (QueryMiddle(operation) + (y + (RunClose + (z + QueryEnd(operation))))))) ==
      SessionOpen + (r(x) + (QueryMiddle(operation) + (r(y) + (RunClose + (r(z) + QueryEnd(operation))))))
  {
    FixedPartsFree(operation);
    var b, c, d := QueryMiddle(operation), RunClose, QueryEnd(operation);
    ReplaceSeam(c, z, d, token, value);
    ReplaceSeam(b, y, c + (z + d), token, value);
    ReplaceSeam(SessionOpen, x, b + (y + (c + (z + d))), token, value);
    FreeUnchanged(d, token, value);
  }

  /** What the chained replacement does to status_xml, error_xml and trace_xml:
      $1 becomes the session id with every $2 and $3 inside it rewritten too,
      $2 becomes the run id with every $3 inside it rewritten, and $3 becomes the
      repository name verbatim. The later replacements see the values inserted
      by the earlier ones. */
  lemma QueryBodyShape(operation: string, sessionId: string, runId: string, repoName: string)
    requires '$' !in operation
    ensures QueryBody(operation, sessionId, runId, repoName) ==
      SessionOpen + (Replace(Replace(sessionId, RunToken, runId), RepoToken, repoName) +
      (QueryMiddle(operation) + (Replace(runId, RepoToken, repoName) +
      (RunClose + (repoName + QueryEnd(operation))))))
  {
    var b, c, d := QueryMiddle(operation), RunClose, QueryEnd(operation);
    var s2 := Replace(sessionId, RunToken, runId);
    calc {
      QueryBody(operation, sessionId, runId, repoName);
      Replace(Replace(Replace(QueryXml(operation), SessionToken, sessionId), RunToken, runId), RepoToken, repoName);
      { SessionPass(operation, sessionId); }
      Replace(Replace(SessionOpen + (sessionId + (b + (RunToken + (c + (RepoToken + d))))), RunToken, runId), RepoToken, repoName);
      { RunPass(operation, sessionId, runId); }
      Replace(SessionOpen + (s2 + (b + (runId + (c + (RepoToken + d))))), RepoToken, repoName);
      { RepoPass(operation, s2, runId, repoName); }
      SessionOpen + (Replace(s2, RepoToken, repoName) + (b + (Replace(runId, RepoToken, repoName) + (c + (repoName + d)))));
    }
  }

  /** The first replacement puts the session id in place of $1. */
  lemma SessionPass(operation: string, sessionId: string)
    requires '$' !in operation
    ensures Replace(QueryXml(operation), SessionToken, sessionId) ==
      SessionOpen + (sessionId + (QueryMiddle(operation) + (RunToken + (RunClose + (RepoToken + QueryEnd(operation))))))
  {
    ReplaceInQuery(operation, SessionToken, RunToken, RepoToken, SessionToken, sessionId);
    PlaceholderReplace(SessionToken, SessionToken, sessionId);
    PlaceholderReplace(RunToken, SessionToken, sessionId);
    PlaceholderReplace(RepoToken, SessionToken, sessionId);
  }

  /** The second replacement rewrites $2 in the session id and puts the run id in place of $2. */
  lemma RunPass(operation: string, sessionId: string, runId: string)
    requires '$' !in operation
    ensures Replace(SessionOpen + (sessionId + (QueryMiddle(operation) + (RunToken + (RunClose + (RepoToken + QueryEnd(operation)))))), RunToken, runId) ==
      SessionOpen + (Replace(sessionId, RunToken, runId) + (QueryMiddle(operation) + (runId + (RunClose + (RepoToken + QueryEnd(operation))))))
  {
    ReplaceInQuery(operation, sessionId, RunToken, RepoToken, RunToken, runId);
    PlaceholderReplace(RunToken, RunToken, runId);
    PlaceholderReplace(RepoToken, RunToken, runId);
  }

  /** The third replacement rewrites $3 in what stands at $1 and $2 and puts the repository name in place of $3. */
  lemma RepoPass(operation: string, atSession: string, atRun: string, repoName: string)
    requires '$' !in operation
    ensures Replace(SessionOpen + (atSession + (QueryMiddle(operation) + (atRun + (RunClose + (RepoToken + QueryEnd(operation)))))), RepoToken, repoName) ==
      SessionOpen + (Replace(atSession, RepoToken, repoName) + (QueryMiddle(operation) + (Replace(atRun, RepoToken, repoName) + (RunClose + (repoName + QueryEnd(operation))))))
  {
    ReplaceInQuery(operation, atSession, atRun, RepoToken, RepoToken, repoName);
    PlaceholderReplace(RepoToken, RepoToken, repoName);
  }

  /** With a session id, run id and repository name free of '$', each value
      lands verbatim in its element and no placeholder is left in the body. */
  lemma QueryBodyComplete(operation: string, sessionId: string, runId: string, repoName: string)
    requires '$' !in operation && '$' !in sessionId && '$' !in runId && '$' !in repoName
    ensures QueryBody(operation, sessionId, runId, repoName) ==
      SessionOpen + (sessionId + (QueryMiddle(operation) + (runId + (RunClose + (repoName + QueryEnd(operation))))))
    ensures '$' !in QueryBody(operation, sessionId, runId, repoName)
    ensures !Contains(QueryBody(operation, sessionId, runId, repoName), SessionToken)
    ensures !Contains(QueryBody(operation, sessionId, runId, repoName), RunToken)
    ensures !Contains(QueryBody(operation, sessionId, runId, repoName), RepoToken)
  {
    QueryBodyShape(operation, sessionId, runId, repoName);
    FreeUnchanged(sessionId, RunToken, runId);
    FreeUnchanged(sessionId, RepoToken, repoName);
    FreeUnchanged(runId, RepoToken, repoName);
    FixedPartsFree(operation);
    var body := QueryBody(operation, sessionId, runId, repoName);
    NotContainsWithoutLead(body, SessionToken);
    NotContainsWithoutLead(body, RunToken);
    NotContainsWithoutLead(body, RepoToken);
  }

  /** A $2 in the session id is taken for the run id's placeholder: the
      SessionID element receives the run id, and a $3 there the repository name. */
  lemma SessionPlaceholderRewritten(operation: string, runId: string, repoName: string)
    requires '$' !in operation && '$' !in runId
    ensures QueryBody(operation, RunToken, runId, repoName) ==
      SessionOpen + (runId + (QueryMiddle(operation) + (runId + (RunClose + (repoName + QueryEnd(operation))))))
    ensures QueryBody(operation, RepoToken, runId, repoName) ==
      SessionOpen + (repoName + (QueryMiddle(operation) + (runId + (RunClose + (repoName + QueryEnd(operation))))))
  {
    QueryBodyShape(operation, RunToken, runId, repoName);
    QueryBodyShape(operation, RepoToken, runId, repoName);
    PlaceholderReplace(RunToken, RunToken, runId);
    PlaceholderReplace(RepoToken, RunToken, runId);
    PlaceholderReplace(RepoToken, RepoToken, repoName);
    FreeUnchanged(runId, RepoToken, repoName);
  }

  /** The logout body replaces $1 only: the session id lands verbatim, even when
      it holds $2 or $3. */
  lemma LogoutBodyShape(sessionId: string)
    ensures LogoutBody(sessionId) == SessionOpen + (sessionId + (SessionClose + LogoutClose))
  {
    FixedPartsFree("");
    ReplaceSeam(SessionOpen, SessionToken, SessionClose + LogoutClose, SessionToken, sessionId);
    PlaceholderReplace(SessionToken, SessionToken, sessionId);
    FreeUnchanged(SessionClose + LogoutClose, SessionToken, sessionId);
  }

  /** The run body of a job XML with a single $1 and no '$' before it: the
      session id stands in its place and everything else stays, a $2 or $3 in
      the session id or after the $1 included. */
  lemma RunBodyShape(head: string, tail: string, sessionId: string)
    requires '$' !in head && !Contains(tail, SessionToken)
    ensures RunBody(head + SessionToken + tail, sessionId) == head + sessionId + tail
  {
    var s := SessionToken + tail;
    ReplaceLeading(SessionToken, tail, sessionId);
    ReplaceAbsent(tail, SessionToken, sessionId);
    ReplaceAppend(head, s, SessionToken, sessionId);
    FreeUnchanged(head, SessionToken, sessionId);
    assert head + SessionToken + tail == head + s;
  }

  /** The run body of any job XML, one $1 at a time: the text before the first
      $1 stays as it is, whatever '$' it holds, the session id stands in place
      of that $1 and is not scanned again, and the rest is filled the same way.
      With ReplaceAbsent for a text without $1, this gives the run body of
      every job XML. */
  lemma RunBodyStep(head: string, tail: string, sessionId: string)
    requires !Contains(head, SessionToken)
    ensures RunBody(head + SessionToken + tail, sessionId) == head + sessionId + RunBody(tail, sessionId)
  {
    ReplaceLeading(SessionToken, tail, sessionId);
    ReplaceAppend(head, SessionToken + tail, SessionToken, sessionId);
    ReplaceAbsent(head, SessionToken, sessionId);
    assert head + SessionToken + tail == head + (SessionToken + tail);
  }

  /** Different job names give different SOAPAction headers. */
  lemma RunActionInjective(jobName: string, other: string)
    ensures RunAction(jobName) == RunAction(other) <==> jobName == other
  {
    if RunAction(jobName) == RunAction(other) {
      assert jobName == RunAction(jobName)[5..|RunAction(jobName)| - 1];
      assert other == RunAction(other)[5..|RunAction(other)| - 1];
    }
  }
}
