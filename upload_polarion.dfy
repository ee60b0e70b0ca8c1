/**
 * The decision logic of the PDF upload script: the `sanitize` cleaner applied
 * to every configuration value, the attachment URL, file name and title built
 * from the cleaned values, and the exit status of a run.
 * Reading the environment, opening the PDF and encoding the multipart body
 * are not modelled: the environment values, whether the PDF exists and the
 * service's reply are parameters.
 */
module UploadPolarion {
  import opened Wrappers
  import opened PyStrings

  /**
   * `sanitize(value)`: a missing or empty value gives "", anything else is
   * stripped of surrounding whitespace and then of every non-ASCII character.
   */
  function Sanitize(value: Option<string>): (r: string)
    ensures value.None? || value.value == [] ==> r == []
    ensures AllAscii(r)
    ensures value.Some? ==> |r| <= |value.value|
  {
    if value.None? || value.value == [] then ""
    else AsciiOnly(Strip(value.value))
  }

  /**
   * What survives is exactly the ASCII characters of the stripped value, in
   * their order: in particular a non-ASCII character in the middle of a
   * value splits nothing and removes nothing around it.
   */
  lemma {:induction false} SanitizeKeepsAsciiInOrder(value: string, front: string, back: string)
    requires Strip(value) == front + back
    ensures Sanitize(Some(value)) == AsciiOnly(front) + AsciiOnly(back)
  {
    AsciiOnlyAppend(front, back);
    if value == [] {
      assert front + back == [];
    }
  }

  /** A clean value (ASCII only, no surrounding whitespace) passes through unchanged. */
  lemma SanitizeUnchanged(value: string)
    requires AllAscii(value)
    requires value != [] ==> !IsWhitespace(value[0]) && !IsWhitespace(value[|value| - 1])
    ensures Sanitize(Some(value)) == value
  {
    StripUnchanged(value);
    AsciiOnlyUnchanged(value);
  }

  /**
   * Stripping happens before filtering, so whitespace hidden behind a
   * non-ASCII character survives: "한 a" becomes " a".
   */
  lemma SanitizeKeepsHiddenSpace(h: char, t: string)
    requires !IsAscii(h) && !IsWhitespace(h)
    requires t != [] && !IsWhitespace(t[|t| - 1]) && AllAscii(t)
    ensures Sanitize(Some([h] + t)) == t
  {
    StripUnchangedCons(h, t);
    AsciiOnlyDropsNonAscii(h, t);
    AsciiOnlyUnchanged(t);
  }

  /** A value that starts with whitespace is changed by cleaning, so cleaning is not idempotent. */
  lemma SanitizeNotIdempotent(t: string)
    requires t != [] && IsWhitespace(t[0])
    ensures Sanitize(Some(t)) != t
  {
    assert LeadingSpace(t) >= 1;
  }

  /** The instance "한 a". */
  lemma SanitizeHiddenSpaceExample()
    ensures Sanitize(Some(['\U{D55C}', ' ', 'a'])) == " a"
    ensures Sanitize(Some(" a")) != " a"
  {
    assert ['\U{D55C}', ' ', 'a'] == ['\U{D55C}'] + " a";
    assert AllAscii(" a");
    SanitizeKeepsHiddenSpace('\U{D55C}', " a");
    SanitizeNotIdempotent(" a");
  }

  /** Each of six concatenated parts reads back from its place. */
  lemma ConcatParts(a: string, b: string, c: string, d: string, e: string, f: string)
    ensures var u := a + b + c + d + e + f;
      var n2, n3, n4, n5 := |a| + |b|, |a| + |b| + |c|, |a| + |b| + |c| + |d|, |a| + |b| + |c| + |d| + |e|;
      |u| == n5 + |f| &&
      u[..|a|] == a && u[|a|..n2] == b && u[n2..n3] == c && u[n3..n4] == d && u[n4..n5] == e && u[n5..] == f
  {
    var p1 := a + b;
    var p2 := p1 + c;
    var p3 := p2 + d;
    var p4 := p3 + e;
    var u := p4 + f;
    assert u[..|p4|] == p4 && u[|p4|..] == f;
    assert p4[..|p3|] == p3 && p4[|p3|..] == e;
    assert p3[..|p2|] == p2 && p3[|p2|..] == d;
    assert p2[..|p1|] == p1 && p2[|p1|..] == c;
    assert p1[..|a|] == a && p1[|a|..] == b;
    assert u[|p3|..|p4|] == p4[|p3|..];
    assert u[|p2|..|p3|] == p3[|p2|..];
    assert u[|p1|..|p2|] == p2[|p1|..];
    assert u[|a|..|p1|] == p1[|a|..];
  }

  /** Six ASCII parts concatenate to an ASCII string. */
  lemma ConcatAscii(a: string, b: string, c: string, d: string, e: string, f: string)
    ensures AllAscii(a) && AllAscii(b) && AllAscii(c) && AllAscii(d) && AllAscii(e) && AllAscii(f) ==>
      AllAscii(a + b + c + d + e + f)
  {
    AllAsciiAppend(a, b);
    AllAsciiAppend(a + b, c);
    AllAsciiAppend(a + b + c, d);
    AllAsciiAppend(a + b + c + d, e);
    AllAsciiAppend(a + b + c + d + e, f);
  }

  /** The target URL: the test run's attachment collection. */
  function AttachmentsUrl(baseUrl: string, projectId: string, testRunId: string): (url: string)
    ensures |url| == |baseUrl| + |projectId| + |testRunId| + 32
    ensures url[..|baseUrl|] == baseUrl
    ensures url[|baseUrl|..|baseUrl| + 10] == "/projects/"
    ensures url[|baseUrl| + 10..|baseUrl| + 10 + |projectId|] == projectId
    ensures url[|baseUrl| + 10 + |projectId|..|baseUrl| + 20 + |projectId|] == "/testruns/"
    ensures url[|baseUrl| + 20 + |projectId|..|url| - 12] == testRunId
    ensures url[|url| - 12..] == "/attachments"
    ensures AllAscii(baseUrl) && AllAscii(projectId) && AllAscii(testRunId) ==> AllAscii(url)
  {
    ConcatParts(baseUrl, "/projects/", projectId, "/testruns/", testRunId, "/attachments");
    assert AllAscii("/projects/") && AllAscii("/testruns/") && AllAscii("/attachments");
    ConcatAscii(baseUrl, "/projects/", projectId, "/testruns/", testRunId, "/attachments");
    baseUrl + "/projects/" + projectId + "/testruns/" + testRunId + "/attachments"
  }

  /** `Static_Analysis_{build}.pdf`: the build number can be read back from the file name. */
  function AttachmentFileName(buildNumber: string): (name: string)
    ensures |name| == |buildNumber| + 20
    ensures name[..16] == "Static_Analysis_"
    ensures name[|name| - 4..] == ".pdf"
    ensures name[16..|name| - 4] == buildNumber
  {
    "Static_Analysis_" + buildNumber + ".pdf"
  }

  /** Different builds give different attachment file names. */
  lemma AttachmentFileNameInjective(b1: string, b2: string)
    requires AttachmentFileName(b1) == AttachmentFileName(b2)
    ensures b1 == b2
  {
    var n := AttachmentFileName(b1);
    assert b1 == n[16..|n| - 4];
  }

  /** `Static Analysis [{job} #{build}]`. */
  function AttachmentTitle(jobName: string, buildNumber: string): (title: string)
    ensures |title| == |jobName| + |buildNumber| + 20
    ensures title[..17] == "Static Analysis ["
    ensures title[17..17 + |jobName|] == jobName
    ensures title[17 + |jobName|..19 + |jobName|] == " #"
    ensures title[|title| - |buildNumber| - 1..] == buildNumber + "]"
  {
    "Static Analysis [" + jobName + " #" + buildNumber + "]"
  }

  /** The environment the upload script reads; `None` is an unset variable. */
  datatype UploadEnv = UploadEnv(
    token: Option<string>,
    projectId: Option<string>,
    testRunId: Option<string>,
    baseUrl: Option<string>,
    pdfPath: Option<string>,
    jobName: Option<string>,
    buildNumber: Option<string>)

  /** The parts of the multipart POST the model keeps. */
  datatype UploadRequest = UploadRequest(url: string, authorization: string, fileName: string, title: string)

  /** What a run does: its exit status and the POST it sends, if any. */
  datatype UploadRun = UploadRun(exitCode: int, request: Option<UploadRequest>)

  function OrDefault(value: Option<string>, default: string): string
  {
    if value.Some? then value.value else default
  }

  /** All required inputs are present once cleaned (the PDF path is not cleaned). */
  predicate RequiredPresent(env: UploadEnv)
  {
    Sanitize(env.token) != [] && Sanitize(env.projectId) != [] && Sanitize(env.testRunId) != [] &&
    Sanitize(env.baseUrl) != [] && env.pdfPath.Some? && env.pdfPath.value != []
  }

  /** The `Authorization` header value: ASCII exactly when the token is. */
  function BearerHeader(token: string): (header: string)
    ensures AllAscii(header) <==> AllAscii(token)
    ensures |header| == |token| + 7
    ensures header[..7] == "Bearer "
    ensures header[|header| - |token|..] == token
  {
    assert AllAscii("Bearer ");
    AllAsciiAppend("Bearer ", token);
    "Bearer " + token
  }

  /**
   * The POST a run sends once its inputs are present: every value in it is
   * the cleaned one (job name and build number cleaned after their defaults
   * "UnknownJob" and "0" apply), so the URL and the authorization header are
   * pure ASCII.
   */
  function RequestFor(env: UploadEnv): (request: UploadRequest)
    ensures request.url == AttachmentsUrl(Sanitize(env.baseUrl), Sanitize(env.projectId), Sanitize(env.testRunId))
    ensures request.authorization == BearerHeader(Sanitize(env.token))
    ensures request.fileName == AttachmentFileName(Sanitize(Some(OrDefault(env.buildNumber, "0"))))
    ensures request.title ==
      AttachmentTitle(Sanitize(Some(OrDefault(env.jobName, "UnknownJob"))), Sanitize(Some(OrDefault(env.buildNumber, "0"))))
    ensures AllAscii(request.url) && AllAscii(request.authorization)
  {
    var token := Sanitize(env.token);
    var buildNumber := Sanitize(Some(OrDefault(env.buildNumber, "0")));
    UploadRequest(
      AttachmentsUrl(Sanitize(env.baseUrl), Sanitize(env.projectId), Sanitize(env.testRunId)),
      BearerHeader(token),
      AttachmentFileName(buildNumber),
      AttachmentTitle(Sanitize(Some(OrDefault(env.jobName, "UnknownJob"))), buildNumber))
  }

  /**
   * One run of the upload script, given whether the PDF exists and the
   * service's reply to the POST. Missing inputs or a missing file exit 1
   * without a request; the upload succeeds only on status 200 or 201.
   */
  function Upload(env: UploadEnv, pdfExists: bool, reply: Reply<string>): (run: UploadRun)
    ensures run.exitCode == 0 || run.exitCode == 1
    ensures run.request.Some? <==> RequiredPresent(env) && pdfExists
    ensures run.request.Some? ==> run.request.value == RequestFor(env)
    ensures run.exitCode == 0 <==>
      RequiredPresent(env) && pdfExists && reply.Response? && (reply.status == 200 || reply.status == 201)
  {
    if !RequiredPresent(env) || !pdfExists then UploadRun(1, None)
    else
      var ok := reply.Response? && (reply.status == 200 || reply.status == 201);
      UploadRun(if ok then 0 else 1, Some(RequestFor(env)))
  }
}
