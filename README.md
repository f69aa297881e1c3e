# Chef's Court of Justice: case lifecycle, jury voting and the role gate

A Dafny model of the backend of a small adjudication workflow. Defendants and
plaintiffs submit cases, which start PENDING. A judge approves, rejects, edits
or deletes them. Jurors see the approved cases, cast one GUILTY or NOT_GUILTY
vote per case, and read a tally. Every route sits behind a gate: the Bearer
token must verify, and the caller's role must be among the route's allowed
roles.

Modules, one per source file, plus a shared one, a helper of the case routes, and a client module:

- `Domain` (domain.dfy): roles, statuses, verdicts, principals, case records,
  and the failure kinds. Those are 401 `Unauthenticated`, 403 `Forbidden`,
  400 `BadRequest` with a reason, and 500 `ServerError`.
- `Auth` (auth.dfy), for `backend/src/middleware/auth.js`: Bearer parsing,
  `authRequired`, `requireRoles`, and the two chained. JWT verification is a
  function parameter `verify`.
- `Text` (text.dfy): the case-insensitive substring test behind the
  submitter-name search.
- `CaseLifecycle` (cases.dfy), for `backend/src/routes/case.js`:
  - the upload MIME whitelist;
  - one specification function per route (`SubmitSpec`, `JudgeSpec`,
    `ListAll`, `ByName`);
  - the class `CaseStore`, which holds the case table (a map from id to
    record, plus the next auto-increment id). Its methods implement the
    state-changing routes step by step. Each method's postcondition ties the
    answer and the new table to the specification function.
- `Jury` (jury.dfy), for `backend/src/routes/jury.js`:
  - `CastSpec` and the tally;
  - the class `VoteStore`, holding the vote table keyed by (case id, juror id).
    `VoteStore.Cast` checks and then inserts, as the handler does.
- `Scenarios` (scenarios.dfy): client methods that drive the stores through
  their contracts. One goes submit → refused approve → approve → vote → tally
  → refused second vote. The other shows that refused submissions create
  nothing.

Route handlers take `user: Option<Principal>`, which is `req.user` as
`authRequired` leaves it, and consult `Auth.RequireRoles` first. `/all` has no
role check, so it takes the authenticated principal directly.

## Model

| member | source | states |
|---|---|---|
| `Auth.BearerToken` | backend/src/middleware/auth.js:9-13 | A token is found exactly when the header is present and starts with "Bearer ". The token is then what follows the prefix: cutting 7 characters equals removing the prefix. |
| `Auth.BearerRoundTrip` | backend/src/middleware/auth.js:10-13 | Any token put behind "Bearer " is recovered unchanged. |
| `Auth.AuthRequired` | backend/src/middleware/auth.js:8-20 | A missing or non-Bearer header gives 401 MissingBearer. For header "Bearer t", the answer is the payload `verify(t)` when it verifies and 401 InvalidToken otherwise. A success always comes from such a token. Every failure is a 401. |
| `Auth.RequireRoles` | backend/src/middleware/auth.js:23-32 | No user gives 401 whatever the allowed roles are. Otherwise it gives 403 exactly when the role is not allowed, and proceeds with the same user exactly when it is. |
| `Auth.Authorize` | backend/src/middleware/auth.js:8-32 | The chain `authRequired, requireRoles(...)` lets a request through exactly when the header is "Bearer t", `t` verifies, and the payload's role is allowed. A missing or non-Bearer header is 401 MissingBearer. For header "Bearer t", an unverified `t` is 401 InvalidToken, and a verified payload whose role is not allowed is 403. Failures are only 401 or 403. The no-user 401 of `requireRoles` is unreachable through the chain. |
| `Text.Contains` | backend/src/routes/case.js:99 | Holds exactly when the fragment occurs at some position of the string. The empty fragment occurs everywhere. |
| `Text.MatchIgnoresCase` | backend/src/routes/case.js:99 | Lower-casing the name or the fragment first does not change the outcome of the case-insensitive match. |
| `CaseLifecycle.AcceptsMime` | backend/src/routes/case.js:12-23 | A file passes exactly when its MIME type is application/pdf, text/plain, image/png or image/jpeg. |
| `CaseLifecycle.UploadAsWritten` | backend/src/routes/case.js:19-31 | As written, a rejected file ends in a 500 (ServerError). An accepted file is recorded under its stored name. No file is recorded as none. |
| `CaseLifecycle.GifUploadIsServerErrorAsWritten` | backend/src/routes/case.js:58-63 | Shows the discrepancy: as written, an image/gif upload is a 500 and not the 400 the submit handler's catch block provides. |
| `CaseLifecycle.UploadedFile` | backend/src/routes/case.js:61-63 | The corrected upload stage: a file outside the whitelist is 400 FileType. An accepted file is recorded under its stored name. No file is recorded as none. |
| `CaseLifecycle.SubmitSpec` | backend/src/routes/case.js:27-50 | The submit route as intended, with the corrected upload stage (400 FileType for a rejected file; the code's 500 is `SubmitAsWritten`). Succeeds exactly for a DEFENDANT or PLAINTIFF with an acceptable (or no) file and non-empty title, argument and evidenceText. The error order is 401/403, then FileType, then MissingFields. The new record has the given id, status PENDING, the caller's id as submitter, the form's fields, and the stored file name or none. |
| `CaseLifecycle.SubmitAsWritten` | backend/src/routes/case.js:19-50 | The submit route as written: same success condition and new record as `SubmitSpec`, but a permitted caller's rejected file is a 500 (ServerError) whatever the form holds, because the filter's error skips the handler. With an acceptable (or no) file, an empty title, argument or evidenceText is 400 MissingFields. |
| `CaseLifecycle.SubmitDiffersOnlyOnRejectedFile` | backend/src/routes/case.js:19-31 | The as-written and the corrected submit agree on every request except a permitted caller's rejected file, which is 500 as written and 400 FileType as intended. |
| `CaseLifecycle.CaseStore.Submit` | backend/src/routes/case.js:27-55 | Answers `SubmitSpec` at the current next id. On success it adds exactly that record under a fresh id and advances the counter. On failure the table and counter are unchanged. It keeps the table invariant. |
| `CaseLifecycle.Patched` | backend/src/routes/case.js:115-118 | Each field present in the patch (title, argument, evidenceText, status) replaces the stored one, and each absent one keeps it. An edit never changes id, submitter or evidence file, since the modelled patch has no such keys (see "## Left out"). The empty patch changes nothing. |
| `CaseLifecycle.JudgeSpec` | backend/src/routes/case.js:112-166 | Edit, delete, approve and reject succeed exactly for a JUDGE on an id in the table. Otherwise the answer is 401, 403 or 400 NoSuchCase. Every other case is untouched. Delete removes exactly that id. Approve and reject set only the status (APPROVED / REJECTED). Edit applies the patch. |
| `CaseLifecycle.JudgeActionIdempotent` | backend/src/routes/case.js:139-166 | Applying approve, reject or the same edit a second time gives the same table as applying it once. |
| `CaseLifecycle.DeleteTwiceFails` | backend/src/routes/case.js:127-136 | After a successful delete, deleting the same id again is 400 NoSuchCase. |
| `CaseLifecycle.JudgeKeepsIndexed` | backend/src/routes/case.js:112-166 | Judge actions keep every row stored under its own id, within the id range. |
| `CaseLifecycle.CaseStore.Edit` | backend/src/routes/case.js:112-124 | Answers and updates as `JudgeSpec` with the patch. The response is the updated row. Failure leaves the table unchanged. |
| `CaseLifecycle.CaseStore.Delete` | backend/src/routes/case.js:127-136 | Answers and updates as `JudgeSpec` with Delete. Failure leaves the table unchanged. |
| `CaseLifecycle.CaseStore.Approve` | backend/src/routes/case.js:139-151 | Answers and updates as `JudgeSpec` with Approve. The response is the updated row. Failure leaves the table unchanged. |
| `CaseLifecycle.CaseStore.Reject` | backend/src/routes/case.js:154-166 | Answers and updates as `JudgeSpec` with Reject. The response is the updated row. Failure leaves the table unchanged. |
| `CaseLifecycle.Scan` | backend/src/routes/case.js:79-83 | Returns exactly the stored rows below the bound that the filter selects, each as stored, with ids strictly decreasing. |
| `CaseLifecycle.ScanAgrees` | backend/src/routes/case.js:79-83 | Two tables that agree below the bound give the same scan. |
| `CaseLifecycle.ListAll` | backend/src/routes/case.js:70-85 | A JUROR gets exactly the APPROVED cases. Any other role gets every case. Each listed row is a stored row, newest (highest id) first. |
| `CaseLifecycle.ListAllIgnoresRequestedStatus` | backend/src/routes/case.js:72-77 | The listing is the same whatever status the caller requests. |
| `CaseLifecycle.ByName` | backend/src/routes/case.js:93-104 | JUROR only (401/403 otherwise). Returns exactly the APPROVED cases whose submitter's name contains the fragment ignoring case, newest first. |
| `CaseLifecycle.ListAllAfterSubmit` | backend/src/routes/case.js:39-50 | After a successful submit, a non-juror's listing is the new case followed by the old listing. A juror's listing is unchanged, because the new case is PENDING. |
| `CaseLifecycle.DecisionControlsJurorView` | backend/src/routes/case.js:139-166 | After approve the case is in every juror's listing. After reject it is in none. |
| `Jury.ParseVerdict` | backend/src/routes/jury.js:13-15 | "GUILTY" and "NOT_GUILTY" are the only accepted verdicts, each naming its own verdict. |
| `Jury.VerdictRoundTrip` | backend/src/routes/jury.js:13 | Every verdict's spelling parses back to that verdict. |
| `Jury.CastSpec` | backend/src/routes/jury.js:8-39 | Succeeds exactly for a JUROR with a valid verdict on an existing APPROVED case that they have not voted on. The error order is 401/403, then InvalidVerdict, then NotVotable, then AlreadyVoted. The stored verdict is the parsed one. |
| `Jury.VerdictCheckedBeforeStore` | backend/src/routes/jury.js:13-18 | With an invalid verdict, the answer does not depend on either table. |
| `Jury.MissingAndUnapprovedAlike` | backend/src/routes/jury.js:18-21 | A missing case and a non-APPROVED case get the same answer. |
| `Jury.NoSecondVote` | backend/src/routes/jury.js:24-29 | Once a juror's vote on a case is stored, every later vote by them on that case fails. With a valid verdict it fails as AlreadyVoted. |
| `Jury.VoteStore.Cast` | backend/src/routes/jury.js:8-44 | Answers `CastSpec` against the case table and the old vote table. On success it inserts exactly the caller's (case, juror) vote with the parsed verdict. On failure the vote table is unchanged, so a stored verdict is never overwritten. |
| `Jury.TallyPartition` | backend/src/routes/jury.js:55-57 | For every case, guilty + notGuilty == totalVotes. |
| `Jury.Results` | backend/src/routes/jury.js:47-59 | JUROR or JUDGE only (401/403 otherwise). totalVotes counts exactly the votes on the requested case id, and guilty and notGuilty count them by verdict. The counts add up. |
| `Jury.ResultsNotGatedOnVoting` | backend/src/routes/jury.js:47-59 | A juror who has not voted on a case still gets its tally. |
| `Jury.InsertTally` | backend/src/routes/jury.js:51-57 | Inserting a vote under a fresh key adds one ballot of its verdict to its own case's tally. It leaves every other case's tally unchanged. |
| `Jury.CastAddsOneBallot` | backend/src/routes/jury.js:31-37 | A successful vote adds one to its case's total and to its verdict's count. It leaves every other case's tally unchanged. |

## Findings

| source | as written | input that shows it | evidently intended | confidence | as-written member | corrected member |
|---|---|---|---|---|---|---|
| backend/src/routes/case.js:19-31 | The filter rejects a file by calling `cb(new Error(...))`, and the upload middleware passes that error to `next(err)`. The route handler and its try/catch are skipped. No error handler is installed (backend/src/server.js), so the framework's default handler answers 500. The catch branches at case.js:58-63 are never reached. | A DEFENDANT submits a valid form with a file of type image/gif. | 400 with the "Only PDF, TXT, PNG, and JPG files are allowed." message, as case.js:61-63 provides. | not executed; high (relies on the middleware framework's documented error propagation) | `CaseLifecycle.UploadAsWritten`, `CaseLifecycle.GifUploadIsServerErrorAsWritten`, `CaseLifecycle.SubmitAsWritten`, `CaseLifecycle.SubmitDiffersOnlyOnRejectedFile` | `CaseLifecycle.UploadedFile`, used by `CaseLifecycle.SubmitSpec` and `CaseLifecycle.CaseStore.Submit` |

## Code and intended design differ

The model follows the code in each of these places:

- `/jury/results` does not require a juror to have voted first; only the UI
  disables its button (frontend/src/App.jsx:339). See
  `Jury.ResultsNotGatedOnVoting`.
- A missing case and an unapproved case get one error, "Can only vote on
  approved cases". There is no separate not-found error. See
  `Jury.MissingAndUnapprovedAlike`.
- `/case/all` ignores the `status` query parameter that the judge's UI sends.
  See `CaseLifecycle.ListAllIgnoresRequestedStatus`.
- Approve and reject have no state guard: re-approving or re-rejecting just
  re-sets the status (`CaseLifecycle.JudgeActionIdempotent`). An approved case
  can also be rejected, and the other way round.
- Edit has no validation. It can blank a title, argument or evidence text,
  and it can set any of the three statuses.
- Delete removes only the case row. No vote is removed in the visible code
  (see below).

## Left out

- frontend/src/App.jsx (rendering, local storage, HTTP calls): presentation only.
- backend/src/server.js (CORS, static files, listening): wiring only. Its
  missing error handler matters only for the finding above.
- backend/src/routes/auth.js (signup and login): password hashing, token
  signing and user lookups are foreign calls. The user table appears only as
  the `names` map (id to name) that the name search reads.
- JWT verification is the parameter `verify: string -> Option<Principal>`,
  with token expiry folded into it.
- The 5 MB upload size limit and the writing of files to disk are left out.
  The stored file name is an input (`Upload.filename`).
- The race between the vote route's existence check and its insert is left
  out. Routes run one at a time, and there is no database-level uniqueness
  error path.
- Cascade deletion of votes (`CaseStore.Delete` leaves the vote table alone)
  and the enum checks the database may do are left out: the schema is not
  part of this model. If the schema forbids deleting a case that still has
  votes, that 400 is not modelled either.
- The 500 answers of the catch blocks for database failures are left out:
  the in-memory tables never fail.
- HTTP status codes and message strings are reduced to the `Failure`
  datatype.
- The joined `submittedBy` user objects in listing responses are left out:
  listings return case records.
- Edit's unfiltered `req.body` is modelled as a partial update of title,
  argument, evidenceText and status only. Other keys are not modelled: an id,
  submitter or evidenceFile key that would be written, and unknown keys or
  ill-typed values that would be a 400. `CaseLifecycle.Patched` keeps id,
  submitter and evidence file only because its patch has no such keys.
- Route ids are integers. For edit, delete, approve and reject, a non-numeric
  id (`Number(...)` gives NaN) behaves like an id that is not in the table:
  their catch blocks answer 400 for any database error. For `/jury/vote` and
  `/jury/results` a non-numeric id is outside the model: the answer would
  depend on how the database layer treats NaN (a 500 from the catch, or an
  empty result).
- As in JavaScript's falsy test, an absent form field is modelled as the
  empty string. A non-string verdict in the body is modelled as a string that
  is neither accepted spelling.
- `Text.Contains` treats the fragment literally: the database's `ILIKE`
  wildcards `%` and `_` are not modelled.
- CaseLifecycle.ByName: folds only ASCII capitals to lower case. The
  database's case-insensitive match also folds other letters, so for non-ASCII
  names this contract differs from the query: the query can return a case
  the contract excludes.
- CaseLifecycle.SubmitSpec: on a permitted caller's rejected file it answers
  the corrected 400 FileType, not the 500 the code gives; the code's answer is
  `CaseLifecycle.SubmitAsWritten`.
- CaseLifecycle.CaseStore.Submit: follows `CaseLifecycle.SubmitSpec`, so on a
  rejected file it answers the corrected 400 FileType and not the code's 500
  (see `CaseLifecycle.SubmitDiffersOnlyOnRejectedFile`). In both cases the
  table and counter are unchanged.
- The design's "my votes" listing for jurors has no route in this code and is
  not modelled.
