# Test-record reconciliation, upload sanitizing and sensor classification in Dafny

This project models the three parts of the repository that make decisions:

- **`scripts/update_test_records.py`**: the CI step that updates the test records of one test run.
  It reads its configuration and exits 1 when the token, project, test run or base URL is empty.
  It GETs the run's test records. A status other than 200 exits 1, and an empty record set exits 0.
  It then builds one PATCH payload. In "Agile" mode the first record is marked failed and a defect work item is requested for it.
  Every other record is marked passed.
  The PATCH succeeds only on status 200 or 204.
  The loop is imperative: `UpdateTestRecords.BuildPayload` is a `while` loop over the records with the `failed_assigned` flag.
  It is proved equal to `Reconcile`, a fold whose state is that flag.
  The properties are lemmas about `Reconcile`: exactly one failure, it is the first record, ids kept in order, and conditional relationships.
  `UpdateTestRecords.RunUpdate` is the whole `main`.
  It takes the three HTTP replies as inputs and returns the exit status together with every request it sent.
- **`scripts/upload_polarion.py`**: the `sanitize` cleaner (`PyStrings` models Python's `str.strip()` and the ASCII filter it uses).
  The module also covers the attachment URL, file name and title, and the exit status of an upload.
- **`sensor_processor.py`**: the threshold classifier `analyze_data`. Its processor is a value holding the temperature limit.

HTTP replies are values of `Wrappers.Reply`: a status plus a decoded body, or a transport failure, which makes `requests` raise.
Environment variables, the UTC timestamp and whether the PDF exists are parameters.
`sys.exit(n)` is a returned exit code.

Points of the code the model keeps as written:
- The script creates a work item of type "defect" with severity "major".
- A record's id is copied verbatim. The only link created is the `relationships.defect` entry of the failed record.
- `create_defect` reads `data.id` from an object only. A list-shaped `data` makes the lookup raise, so the result is `None`.
- The plan type is stripped before it is compared with "Agile". The comparison is case-sensitive.
- The check `if new_defect_id:` tests truthiness, so an empty id "" attaches no relationship either.

## Model

| member | source | states |
|---|---|---|
| `PyStrings.Strip` | scripts/upload_polarion.py:24 | `str.strip()`: the result is the infix of the input that starts after the leading whitespace; only whitespace follows it; it neither starts nor ends with whitespace (Python's `isspace` set) |
| `PyStrings.StripEmpty` | scripts/upload_polarion.py:24 | stripping gives "" exactly when the input is all whitespace |
| `PyStrings.StripUnchanged` | scripts/upload_polarion.py:24 | a string that neither starts nor ends with whitespace is returned unchanged |
| `PyStrings.AsciiOnly` | scripts/upload_polarion.py:26 | `encode('ascii', errors='ignore')`: every character of the result is ASCII and the result is no longer than the input |
| `PyStrings.AsciiOnlyCounts` | scripts/upload_polarion.py:26 | every ASCII character is kept as often as it occurs; every non-ASCII character is dropped |
| `PyStrings.AsciiOnlyAppend` | scripts/upload_polarion.py:26 | the filter distributes over concatenation, so it keeps the order of what it keeps |
| `PyStrings.AsciiOnlyUnchanged` | scripts/upload_polarion.py:26 | the filter leaves a string unchanged if and only if the string is all ASCII |
| `UploadPolarion.Sanitize` | scripts/upload_polarion.py:14-26 | a missing or empty value gives ""; the result is all ASCII and no longer than the input |
| `UploadPolarion.SanitizeKeepsAsciiInOrder` | scripts/upload_polarion.py:24-26 | for any split of the stripped value, the result is the ASCII characters of each part, in order |
| `UploadPolarion.SanitizeUnchanged` | scripts/upload_polarion.py:22-26 | an all-ASCII value without surrounding whitespace passes through unchanged |
| `UploadPolarion.SanitizeKeepsHiddenSpace` | scripts/upload_polarion.py:24-26 | whitespace behind a leading non-ASCII character survives, because stripping comes before filtering |
| `UploadPolarion.SanitizeNotIdempotent` | scripts/upload_polarion.py:24-26 | a value starting with whitespace is changed by cleaning, so a result like " a" is changed by a second pass |
| `UploadPolarion.SanitizeHiddenSpaceExample` | scripts/upload_polarion.py:24-26 | "한 a" cleans to " a", which is not a fixed point |
| `UploadPolarion.AttachmentsUrl` | scripts/upload_polarion.py:57 | `{base}/projects/{project}/testruns/{run}/attachments`: the base URL, project id and test-run id read back from their places between the fixed segments; it is all ASCII when its parts are |
| `UploadPolarion.AttachmentFileName` | scripts/upload_polarion.py:61 | `Static_Analysis_{build}.pdf`: the prefix, the suffix, and the build number read back from between them |
| `UploadPolarion.AttachmentFileNameInjective` | scripts/upload_polarion.py:61 | different builds give different file names |
| `UploadPolarion.AttachmentTitle` | scripts/upload_polarion.py:62 | `Static Analysis [{job} #{build}]`: the job name follows the fixed prefix, " #" follows the job name, and the title ends with the build and "]" |
| `UploadPolarion.BearerHeader` | scripts/upload_polarion.py:75-78 | the Authorization value is "Bearer " followed by the token, and is ASCII exactly when the token is |
| `UploadPolarion.RequestFor` | scripts/upload_polarion.py:33-78 | the URL is built from the cleaned base URL, project and run; the header from the cleaned token; file name and title from the cleaned build number (default "0") and job name (default "UnknownJob"); URL and header are pure ASCII |
| `UploadPolarion.Upload` | scripts/upload_polarion.py:45-110 | no request unless token, project, run, base URL and PDF path are present and the PDF exists; exit 0 exactly when such a request gets status 200 or 201, else exit 1 |
| `UpdateTestRecords.DefectRequestNamesBuild` | scripts/update_test_records.py:31-54 | the defect POST's URL reads back as the base URL, "/projects/", the project id and "/workitems"; it asks for an open, major "defect", and ends its title and description with the build number |
| `UpdateTestRecords.CreateDefect` | scripts/update_test_records.py:56-70 | an id is returned if and only if the status is 201 and `data` is an object carrying an id, and it is that id; any other status, a transport failure, a list-shaped `data` or a malformed body gives `None` |
| `UpdateTestRecords.Reconcile` | scripts/update_test_records.py:131-178 | the fold over the records with the `failed_assigned` flag yields one entry per record |
| `UpdateTestRecords.ReconcileAt` | scripts/update_test_records.py:140-176 | entry k is the record-k entry, failed exactly when k = 0 in an Agile run not yet failed |
| `UpdateTestRecords.AgileFailsFirstOnly` | scripts/update_test_records.py:131-158 | in Agile mode the first entry is "failed" with the "- Defect Created" comment and all N−1 others are "passed" with the passed comment |
| `UpdateTestRecords.StandardModeAllPassed` | scripts/update_test_records.py:131-140 | outside Agile mode every entry is "passed" and none has relationships |
| `UpdateTestRecords.ExactlyOneFailure` | scripts/update_test_records.py:132-158 | the number of failed entries is 1 for a non-empty Agile run and 0 otherwise |
| `UpdateTestRecords.KeepsIdsAndOrder` | scripts/update_test_records.py:128-178 | same length as the fetched list; entry k has record k's id, type "testrecords" and the one shared timestamp |
| `UpdateTestRecords.RelationshipOnlyOnFailed` | scripts/update_test_records.py:148-176 | an entry has relationships if and only if it is the first entry of an Agile run and the defect id came back non-empty; it is then failed and links `{type: "workitems", id}` |
| `UpdateTestRecords.FailedWithoutDefect` | scripts/update_test_records.py:141-176 | without a defect id the first Agile entry is still failed with the "- Defect Created" comment, but has no relationships |
| `UpdateTestRecords.BuildPayload` | scripts/update_test_records.py:128-178 | the loop requests a defect once, only for a non-empty Agile run; it returns a payload if and only if every record has an id, and that payload equals `Reconcile` with the defect id from `CreateDefect` |
| `UpdateTestRecords.RunUpdate` | scripts/update_test_records.py:79-197 | an empty token, project, run or base URL exits 1 with no request; a failed GET exits 1; an empty set exits 0 with no PATCH; at most one defect request; the PATCH goes to the records URL with the `Reconcile` payload; exit 0 exactly for an empty set or a PATCH answered 200 or 204 |
| `SensorProcessing.AnalyzeData` | sensor_processor.py:7-13 | the result is one of the three messages; warning if and only if temperature > limit; pressure error if and only if temperature ≤ limit and pressure < 0; normal if and only if temperature ≤ limit and pressure ≥ 0 |
| `SensorProcessing.AtLimitIsNotWarning` | sensor_processor.py:9 | the threshold is strict: a temperature equal to the limit is not a warning |
| `SensorProcessing.DefaultLimitCases` | test_processor.py:9-27 | with the default limit 100.0 and pressure 2.0, 110.0 gives the warning and 50.0 gives normal |

## Left out

- HTTP traffic, TLS-warning suppression, JSON decoding and ANSI-coloured logging are not modelled. Each reply is an input value. A decoded body is one of a few shapes: for the GET, an object whose `data` is a list, missing or null, or not an object at all; for the defect POST, `data` as an object with or without `id`, as a list, or a malformed body.
- A GET `data` that is a non-list JSON value, such as a dict or a string, is not modelled, and neither is a defect `id` that is not a string.
- A fetched record whose `id` is present but is not a string (JSON `null` or a number) is not modelled. The script copies such an id into the PATCH as it is; in the model a record's id is a string or missing, and a missing id exits 1.
- Reading environment variables is not modelled; the values are parameters. An unset variable whose default is '' reads as "".
- `datetime.utcnow()` is not modelled; the timestamp is a parameter.
- Printing, and the response body shown on a failed PATCH or upload, are not modelled.
- `UploadPolarion.Upload`: it does not model opening the PDF or building the multipart body with `json.dumps` (scripts/upload_polarion.py:64-94). These are file I/O and library encoding. The file name and title are kept in the request record. An `open` that fails after the existence check is not modelled.
- The unused `job_name` of scripts/update_test_records.py:85 is not modelled.
- `SensorProcessor.get_summary` is not modelled, because it is floating-point averaging and `round`.
- `SensorProcessing.AnalyzeData`: it compares exact reals, not IEEE doubles. The model has no NaN: with a NaN temperature or limit the script never warns (and still reports a negative pressure), and with a NaN pressure it never reports the pressure error.
- `UpdateTestRecords.BuildPayload`: it records the defect requests it makes, not the index of the record being processed at the time. That a request is made only for the first record follows from the loop invariant, not from the method's contract.
- scripts/build_interface.py, src/monitor_app/ (core.py, main.py, utils.py) and the root main.py are not part of this model. They do subprocess and filesystem work, randomness and demo printing. models.py is used only as the shape of `SensorProcessing.SensorData`.
