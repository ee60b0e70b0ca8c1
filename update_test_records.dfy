/**
 * The test-record update script: it fetches the test records of one test
 * run, marks each one passed, or (in "Agile" mode) marks the first one failed
 * and files a defect for it, and sends all of them back in one PATCH.
 *
 * The three HTTP exchanges are inputs: the reply to the GET, the reply to
 * the defect POST and the reply to the PATCH. The environment values and the
 * UTC timestamp are parameters; the exit status is a returned number.
 */
module UpdateTestRecords {
  import opened Wrappers
  import opened PyStrings

  // ---------------------------------------------------------------------
  // Wire shapes
  // ---------------------------------------------------------------------

  /** One element of the fetched `data` list; only its `id` is read, and it may be absent. */
  datatype FetchedRecord = FetchedRecord(id: Option<string>)

  /**
   * The decoded body of the GET reply: something that is not a JSON object
   * (decoding or `.get` raises), or an object whose `data` key is a list of
   * records or is missing or null (`None`).
   */
  datatype FetchBody = NotAnObject | Parsed(data: Option<seq<FetchedRecord>>)

  /**
   * The decoded body of the defect POST reply: `data` as an object with or
   * without an `id`, `data` as a JSON list, or anything else (no JSON, no
   * `data` key).
   */
  datatype DefectBody = DataObject(id: Option<string>) | DataList | Malformed

  /** The defect work item the script asks the service to create. */
  datatype DefectRequest = DefectRequest(
    url: string,
    authorization: string,
    workItemType: string,
    title: string,
    description: RichText,
    severity: string,
    status: string)

  /** A `{type, value}` rich-text attribute. */
  datatype RichText = RichText(contentType: string, value: string)

  /** `relationships.defect.data` of a patched record: `{type, id}`. */
  datatype DefectLink = DefectLink(dataType: string, id: string)

  /** One entry of the PATCH payload's `data` list. */
  datatype PatchRecord = PatchRecord(
    recordType: string,
    id: string,
    result: string,
    executed: string,
    comment: RichText,
    relationships: Option<DefectLink>)

  datatype PatchRequest = PatchRequest(url: string, data: seq<PatchRecord>)

  /** The environment values, unstripped; an unset variable reads as "". */
  datatype UpdateEnv = UpdateEnv(
    token: string,
    projectId: string,
    testRunId: string,
    baseUrl: string,
    planType: string,
    buildNumber: Option<string>)

  /** What one run did: its exit status and every request it sent. */
  datatype UpdateRun = UpdateRun(
    exitCode: int,
    fetchUrl: Option<string>,
    defectRequests: seq<DefectRequest>,
    patch: Option<PatchRequest>)

  // ---------------------------------------------------------------------
  // Defect creation
  // ---------------------------------------------------------------------

  /** The POST body and target of `create_defect`. */
  function DefectRequestFor(baseUrl: string, projectId: string, token: string, buildNumber: string): (req: DefectRequest)
  {
    DefectRequest(
      baseUrl + "/projects/" + projectId + "/workitems",
      "Bearer " + token,
      "defect",
      "[Auto] Test Failed in Jenkins Build #" + buildNumber,
      RichText("text/html", "This defect was automatically created by Jenkins CI/CD.<br>Build Number: " + buildNumber),
      "major",
      "open")
  }

  /**
   * The defect request targets the project's work-item collection, asks for
   * an open major defect, and names the build in its title and description.
   */
  lemma DefectRequestNamesBuild(baseUrl: string, projectId: string, token: string, buildNumber: string)
    ensures var req := DefectRequestFor(baseUrl, projectId, token, buildNumber);
      req.workItemType == "defect" && req.status == "open" && req.severity == "major" &&
      |req.url| == |baseUrl| + |projectId| + 20 &&
      req.url[..|baseUrl|] == baseUrl && req.url[|baseUrl|..|baseUrl| + 10] == "/projects/" &&
      req.url[|baseUrl| + 10..|req.url| - 10] == projectId && req.url[|req.url| - 10..] == "/workitems" &&
      |req.title| >= |buildNumber| && req.title[|req.title| - |buildNumber|..] == buildNumber &&
      |req.description.value| >= |buildNumber| &&
      req.description.value[|req.description.value| - |buildNumber|..] == buildNumber
  {
    var req := DefectRequestFor(baseUrl, projectId, token, buildNumber);
    assert req.title == "[Auto] Test Failed in Jenkins Build #" + buildNumber;
  }

  /**
   * The value `create_defect` returns for a reply: `data.id` when the status
   * is 201 and `data` is an object carrying an id; `None` for any other
   * status, for a transport failure and for every body that makes the
   * lookup raise (a list-shaped `data` included).
   */
  function CreateDefect(reply: Reply<DefectBody>): (id: Option<string>)
    ensures id.Some? <==> reply.Response? && reply.status == 201 && reply.body.DataObject? && reply.body.id.Some?
    ensures id.Some? ==> id == reply.body.id
    ensures reply.Response? && reply.body.DataList? ==> id.None?
  {
    match reply
    case TransportError => None
    case Response(status, body) =>
      if status != 201 then None
      else
        match body
        case DataObject(id) => id
        case DataList => None
        case Malformed => None
  }

  /** Python truthiness of the returned id: `None` and "" are both false. */
  predicate Truthy(id: Option<string>)
  {
    id.Some? && id.value != []
  }

  // ---------------------------------------------------------------------
  // The reconciliation, as a fold over the fetched records
  // ---------------------------------------------------------------------

  function PassedComment(buildNumber: string): string
  {
    "Test Passed from Jenkins (#" + buildNumber + ")"
  }

  function FailedComment(buildNumber: string): string
  {
    "Test Failed from Jenkins (#" + buildNumber + ") - Defect Created"
  }

  /** The patch entry for one record, failed or passed. */
  function Entry(id: string, failed: bool, buildNumber: string, executed: string, defectId: Option<string>): PatchRecord
  {
    PatchRecord(
      "testrecords",
      id,
      if failed then "failed" else "passed",
      executed,
      RichText("text/html", if failed then FailedComment(buildNumber) else PassedComment(buildNumber)),
      if failed && Truthy(defectId) then Some(DefectLink("workitems", defectId.value)) else None)
  }

  predicate AllIdsPresent(items: seq<FetchedRecord>)
  {
    forall k :: 0 <= k < |items| ==> items[k].id.Some?
  }

  /**
   * The payload the loop builds, as a fold whose state is the
   * `failed_assigned` flag: while it is false in Agile mode the record at
   * hand is failed and the flag becomes true for the rest of the run.
   */
  function Reconcile(items: seq<FetchedRecord>, isAgile: bool, failedAssigned: bool,
                     buildNumber: string, executed: string, defectId: Option<string>): (data: seq<PatchRecord>)
    requires AllIdsPresent(items)
    ensures |data| == |items|
    decreases |items|
  {
    if items == [] then []
    else
      var failNow := isAgile && !failedAssigned;
      [Entry(items[0].id.value, failNow, buildNumber, executed, defectId)]
        + Reconcile(items[1..], isAgile, failedAssigned || failNow, buildNumber, executed, defectId)
  }

  /** The first step of the fold. */
  lemma ReconcileUnfold(items: seq<FetchedRecord>, isAgile: bool, failedAssigned: bool,
                        buildNumber: string, executed: string, defectId: Option<string>)
    requires AllIdsPresent(items) && items != []
    ensures AllIdsPresent(items[1..])
    ensures Reconcile(items, isAgile, failedAssigned, buildNumber, executed, defectId)
         == [Entry(items[0].id.value, isAgile && !failedAssigned, buildNumber, executed, defectId)]
            + Reconcile(items[1..], isAgile, failedAssigned || (isAgile && !failedAssigned), buildNumber, executed, defectId)
  {
    forall j | 0 <= j < |items| - 1 ensures items[1..][j].id.Some? {
      assert items[1..][j] == items[j + 1];
    }
  }

  /** Entry `k` of the fold: failed exactly when it is the first entry of an Agile run not yet failed. */
  lemma {:induction false} ReconcileAt(items: seq<FetchedRecord>, isAgile: bool, failedAssigned: bool,
                                       buildNumber: string, executed: string, defectId: Option<string>, k: nat)
    requires AllIdsPresent(items)
    requires k < |items|
    ensures Reconcile(items, isAgile, failedAssigned, buildNumber, executed, defectId)[k]
         == Entry(items[k].id.value, isAgile && !failedAssigned && k == 0, buildNumber, executed, defectId)
  {
    var failNow := isAgile && !failedAssigned;
    ReconcileUnfold(items, isAgile, failedAssigned, buildNumber, executed, defectId);
    if k > 0 {
      ReconcileAt(items[1..], isAgile, failedAssigned || failNow, buildNumber, executed, defectId, k - 1);
      assert items[1..][k - 1] == items[k];
    }
  }

  /** In Agile mode the first record is failed and every other record is passed. */
  lemma {:induction false} AgileFailsFirstOnly(items: seq<FetchedRecord>, buildNumber: string, executed: string, defectId: Option<string>)
    requires AllIdsPresent(items) && |items| >= 1
    ensures var data := Reconcile(items, true, false, buildNumber, executed, defectId);
      data[0].result == "failed" && data[0].comment.value == FailedComment(buildNumber) &&
      forall k :: 1 <= k < |data| ==> data[k].result == "passed" && data[k].comment.value == PassedComment(buildNumber)
  {
    var data := Reconcile(items, true, false, buildNumber, executed, defectId);
    forall k | 0 <= k < |data|
      ensures data[k].result == (if k == 0 then "failed" else "passed")
      ensures data[k].comment.value == if k == 0 then FailedComment(buildNumber) else PassedComment(buildNumber)
    {
      ReconcileAt(items, true, false, buildNumber, executed, defectId, k);
    }
  }

  /** In any other mode every record is passed and none carries a relationship. */
  lemma {:induction false} StandardModeAllPassed(items: seq<FetchedRecord>, buildNumber: string, executed: string, defectId: Option<string>)
    requires AllIdsPresent(items)
    ensures var data := Reconcile(items, false, false, buildNumber, executed, defectId);
      forall k :: 0 <= k < |data| ==> data[k].result == "passed" && data[k].relationships.None?
  {
    var data := Reconcile(items, false, false, buildNumber, executed, defectId);
    forall k | 0 <= k < |data| ensures data[k].result == "passed" && data[k].relationships.None? {
      ReconcileAt(items, false, false, buildNumber, executed, defectId, k);
    }
  }

  /** Number of failed entries in a payload. */
  function FailedCount(data: seq<PatchRecord>): nat
  {
    if data == [] then 0 else (if data[0].result == "failed" then 1 else 0) + FailedCount(data[1..])
  }

  /** Exactly one record fails in a non-empty Agile run; none fails otherwise. */
  lemma {:induction false} ExactlyOneFailure(items: seq<FetchedRecord>, isAgile: bool, failedAssigned: bool,
                                             buildNumber: string, executed: string, defectId: Option<string>)
    requires AllIdsPresent(items)
    ensures FailedCount(Reconcile(items, isAgile, failedAssigned, buildNumber, executed, defectId))
         == if isAgile && !failedAssigned && |items| > 0 then 1 else 0
  {
    if items != [] {
      var failNow := isAgile && !failedAssigned;
      ReconcileUnfold(items, isAgile, failedAssigned, buildNumber, executed, defectId);
      ExactlyOneFailure(items[1..], isAgile, failedAssigned || failNow, buildNumber, executed, defectId);
      var data := Reconcile(items, isAgile, failedAssigned, buildNumber, executed, defectId);
      assert data[1..] == Reconcile(items[1..], isAgile, failedAssigned || failNow, buildNumber, executed, defectId);
    }
  }

  /**
   * The payload keeps the fetched order: one entry per record, each with the
   * record's id, the type "testrecords" and the one shared timestamp.
   */
  lemma {:induction false} KeepsIdsAndOrder(items: seq<FetchedRecord>, isAgile: bool, buildNumber: string, executed: string, defectId: Option<string>)
    requires AllIdsPresent(items)
    ensures var data := Reconcile(items, isAgile, false, buildNumber, executed, defectId);
      |data| == |items| &&
      forall k :: 0 <= k < |data| ==>
        Some(data[k].id) == items[k].id && data[k].recordType == "testrecords" && data[k].executed == executed
  {
    var data := Reconcile(items, isAgile, false, buildNumber, executed, defectId);
    forall k | 0 <= k < |data|
      ensures Some(data[k].id) == items[k].id && data[k].recordType == "testrecords" && data[k].executed == executed
    {
      ReconcileAt(items, isAgile, false, buildNumber, executed, defectId, k);
    }
  }

  /**
   * A relationship appears only on the failed first record of an Agile run,
   * and there exactly when the defect id came back non-empty; it then links
   * that id as a work item.
   */
  lemma {:induction false} RelationshipOnlyOnFailed(items: seq<FetchedRecord>, isAgile: bool, buildNumber: string, executed: string, defectId: Option<string>)
    requires AllIdsPresent(items)
    ensures var data := Reconcile(items, isAgile, false, buildNumber, executed, defectId);
      forall k :: 0 <= k < |data| ==>
        (data[k].relationships.Some? <==> k == 0 && isAgile && Truthy(defectId)) &&
        (data[k].relationships.Some? ==>
           data[k].result == "failed" && data[k].relationships.value == DefectLink("workitems", defectId.value))
  {
    var data := Reconcile(items, isAgile, false, buildNumber, executed, defectId);
    forall k | 0 <= k < |data|
      ensures data[k].relationships.Some? <==> k == 0 && isAgile && Truthy(defectId)
      ensures data[k].relationships.Some? ==>
                data[k].result == "failed" && data[k].relationships.value == DefectLink("workitems", defectId.value)
    {
      ReconcileAt(items, isAgile, false, buildNumber, executed, defectId, k);
    }
  }

  /** Without a defect id the first Agile record is still failed, with the same comment, but unlinked. */
  lemma {:induction false} FailedWithoutDefect(items: seq<FetchedRecord>, buildNumber: string, executed: string, defectId: Option<string>)
    requires AllIdsPresent(items) && |items| >= 1
    requires !Truthy(defectId)
    ensures var data := Reconcile(items, true, false, buildNumber, executed, defectId);
      data[0].result == "failed" && data[0].comment.value == FailedComment(buildNumber) && data[0].relationships.None?
  {
    ReconcileAt(items, true, false, buildNumber, executed, defectId, 0);
  }

  // ---------------------------------------------------------------------
  // The loop itself
  // ---------------------------------------------------------------------

  /**
   * The transformation loop of the script. It walks the records once with
   * the `failed_assigned` flag, calls `create_defect` for the first record
   * in Agile mode only, and appends one entry per record. A record without
   * an `id` raises (`None` here), after the defect may already have been
   * requested.
   */
  method BuildPayload(items: seq<FetchedRecord>, isAgile: bool, baseUrl: string, projectId: string, token: string,
                      buildNumber: string, executed: string, defectReply: Reply<DefectBody>)
    returns (data: Option<seq<PatchRecord>>, defectRequests: seq<DefectRequest>)
    ensures defectRequests ==
      if isAgile && |items| > 0 then [DefectRequestFor(baseUrl, projectId, token, buildNumber)] else []
    ensures data.Some? <==> AllIdsPresent(items)
    ensures data.Some? ==>
      data.value == Reconcile(items, isAgile, false, buildNumber, executed, CreateDefect(defectReply))
  {
    ghost var defectId := CreateDefect(defectReply);
    ghost var request := DefectRequestFor(baseUrl, projectId, token, buildNumber);
    var cleanData: seq<PatchRecord> := [];
    var failedAssigned := false;
    defectRequests := [];
    var i := 0;
    while i < |items|
      invariant 0 <= i <= |items|
      invariant failedAssigned <==> isAgile && i > 0
      invariant defectRequests == if failedAssigned then [request] else []
      invariant |cleanData| == i
      invariant forall k :: 0 <= k < i ==>
        items[k].id.Some? && cleanData[k] == Entry(items[k].id.value, isAgile && k == 0, buildNumber, executed, defectId)
    {
      var item := items[i];
      var resultStatus := "passed";
      var commentText := PassedComment(buildNumber);
      var defectRelationship: Option<DefectLink> := None;
      if isAgile && !failedAssigned {
        resultStatus := "failed";
        commentText := FailedComment(buildNumber);
        defectRequests := defectRequests + [DefectRequestFor(baseUrl, projectId, token, buildNumber)];
        var newDefectId := CreateDefect(defectReply);
        if Truthy(newDefectId) {
          defectRelationship := Some(DefectLink("workitems", newDefectId.value));
        }
        failedAssigned := true;
      }
      if item.id.None? {
        return None, defectRequests;
      }
      var patchRecord := PatchRecord("testrecords", item.id.value, resultStatus, executed,
                                     RichText("text/html", commentText), None);
      if defectRelationship.Some? {
        patchRecord := patchRecord.(relationships := defectRelationship);
      }
      assert patchRecord == Entry(item.id.value, isAgile && i == 0, buildNumber, executed, defectId);
      cleanData := cleanData + [patchRecord];
      i := i + 1;
    }
    assert AllIdsPresent(items);
    ghost var expected := Reconcile(items, isAgile, false, buildNumber, executed, defectId);
    forall k | 0 <= k < |items| ensures expected[k] == cleanData[k] {
      ReconcileAt(items, isAgile, false, buildNumber, executed, defectId, k);
    }
    assert cleanData == expected;
    return Some(cleanData), defectRequests;
  }

  // ---------------------------------------------------------------------
  // One run: configuration check, GET, transformation, PATCH
  // ---------------------------------------------------------------------

  /** Token, project, test run and base URL are all non-empty once stripped. */
  predicate ConfigComplete(env: UpdateEnv)
  {
    Strip(env.token) != [] && Strip(env.projectId) != [] && Strip(env.testRunId) != [] && Strip(env.baseUrl) != []
  }

  /** The plan type is compared, after stripping, with "Agile" exactly (case-sensitively). */
  predicate IsAgile(env: UpdateEnv)
  {
    Strip(env.planType) == "Agile"
  }

  function BuildNumber(env: UpdateEnv): string
  {
    if env.buildNumber.Some? then env.buildNumber.value else "0"
  }

  /** The test-records collection of the run, the target of both the GET and the PATCH. */
  function RecordsUrl(env: UpdateEnv): string
  {
    Strip(env.baseUrl) + "/projects/" + Strip(env.projectId) + "/testruns/" + Strip(env.testRunId) + "/testrecords"
  }

  /**
   * The records a GET reply yields: `None` when the run cannot go on (a
   * transport failure, a status other than 200, a body that is not an
   * object), otherwise the `data` list, empty when the key is missing or null.
   */
  function FetchedItems(fetch: Reply<FetchBody>): Option<seq<FetchedRecord>>
  {
    if fetch.TransportError? || fetch.status != 200 || fetch.body.NotAnObject? then None
    else if fetch.body.data.None? then Some([])
    else Some(fetch.body.data.value)
  }

  /**
   * One run of the script, given the three replies and the timestamp taken
   * once before the loop. An incomplete configuration exits 1 before any
   * request; a failed GET exits 1; an empty record set exits 0 without a
   * PATCH; at most one defect is requested; the PATCH carries the fold of
   * the fetched records and succeeds only on status 200 or 204.
   */
  method RunUpdate(env: UpdateEnv, fetch: Reply<FetchBody>, defectReply: Reply<DefectBody>,
                   patchReply: Reply<string>, now: string)
    returns (run: UpdateRun)
    ensures run.exitCode == 0 || run.exitCode == 1
    ensures !ConfigComplete(env) ==> run == UpdateRun(1, None, [], None)
    ensures ConfigComplete(env) ==> run.fetchUrl == Some(RecordsUrl(env))
    ensures |run.defectRequests| <= 1
    ensures run.defectRequests != [] <==>
      ConfigComplete(env) && IsAgile(env) && FetchedItems(fetch).Some? && FetchedItems(fetch).value != []
    ensures run.defectRequests != [] ==>
      run.defectRequests[0] == DefectRequestFor(Strip(env.baseUrl), Strip(env.projectId), Strip(env.token), BuildNumber(env))
    ensures run.patch.Some? <==>
      ConfigComplete(env) && FetchedItems(fetch).Some? && FetchedItems(fetch).value != [] &&
      AllIdsPresent(FetchedItems(fetch).value)
    ensures ConfigComplete(env) && FetchedItems(fetch).Some? && AllIdsPresent(FetchedItems(fetch).value) &&
            run.patch.Some? ==>
      run.patch.value == PatchRequest(RecordsUrl(env),
        Reconcile(FetchedItems(fetch).value, IsAgile(env), false, BuildNumber(env), now, CreateDefect(defectReply)))
    ensures run.exitCode == 0 <==>
      ConfigComplete(env) && FetchedItems(fetch).Some? &&
      (FetchedItems(fetch).value == [] ||
       (AllIdsPresent(FetchedItems(fetch).value) && patchReply.Response? &&
        (patchReply.status == 200 || patchReply.status == 204)))
  {
    var token := Strip(env.token);
    var projectId := Strip(env.projectId);
    var testRunId := Strip(env.testRunId);
    var baseUrl := Strip(env.baseUrl);
    var planType := Strip(env.planType);
    var buildNumber := BuildNumber(env);

    if token == [] {
      return UpdateRun(1, None, [], None);
    }
    if projectId == [] || testRunId == [] || baseUrl == [] {
      return UpdateRun(1, None, [], None);
    }

    var apiUrl := baseUrl + "/projects/" + projectId + "/testruns/" + testRunId + "/testrecords";
    assert ConfigComplete(env) && apiUrl == RecordsUrl(env);

    // Step 1: GET the existing records.
    if fetch.TransportError? || fetch.status != 200 || fetch.body.NotAnObject? {
      return UpdateRun(1, Some(apiUrl), [], None);
    }
    var recordsData := if fetch.body.data.Some? then fetch.body.data.value else [];
    assert FetchedItems(fetch) == Some(recordsData);
    if recordsData == [] {
      return UpdateRun(0, Some(apiUrl), [], None);
    }

    // Step 2: the transformation loop.
    var isAgileMode := planType == "Agile";
    assert isAgileMode == IsAgile(env);
    var cleanData, defectRequests := BuildPayload(recordsData, isAgileMode, baseUrl, projectId, token,
                                                  buildNumber, now, defectReply);
    if cleanData.None? {
      return UpdateRun(1, Some(apiUrl), defectRequests, None);
    }

    // Step 3: PATCH the whole payload.
    var ok := patchReply.Response? && (patchReply.status == 200 || patchReply.status == 204);
    return UpdateRun(if ok then 0 else 1, Some(apiUrl), defectRequests, Some(PatchRequest(apiUrl, cleanData.value)));
  }
}
