/** Entities shared by the access gate, the case lifecycle and the voting
    engine: principals, case records, verdicts, and the failure kinds a route
    handler can answer with. */
module Domain {

  datatype Option<+T> = None | Some(value: T)

  /** The four roles a user signs up with; a principal has exactly one. */
  datatype Role = Defendant | Plaintiff | Judge | Juror

  /** The three statuses a case can be in. */
  datatype Status = Pending | Approved | Rejected

  /** A juror's decision on a case. */
  datatype Verdict = Guilty | NotGuilty

  /** The decoded token payload that the gate stores as `req.user`. */
  datatype Principal = Principal(id: int, role: Role, name: string)

  /** One row of the case table. `evidenceFile` is the name under which the
      upload was stored, or None when the case was submitted without a file. */
  datatype CaseRecord = CaseRecord(
    id: int,
    title: string,
    argument: string,
    evidenceText: string,
    evidenceFile: Option<string>,
    status: Status,
    submittedById: int)

  /** Why a request was answered with 401. */
  datatype AuthReason =
    | MissingBearer   // no Authorization header, or not of the form "Bearer <token>"
    | InvalidToken    // the token did not verify
    | NoUser          // a role check ran without an authenticated user

  /** Why a request was answered with 400. */
  datatype Reason =
    | MissingFields   // title, argument or evidenceText empty or absent
    | FileType        // the uploaded file's MIME type is not whitelisted
    | NoSuchCase      // edit, delete, approve or reject on an id not in the table
    | InvalidVerdict  // a verdict other than GUILTY and NOT_GUILTY
    | NotVotable      // the case is missing or not APPROVED (one answer for both)
    | AlreadyVoted    // the juror already has a vote on this case

  /** The failure kinds kept apart by the handlers: 401, 403, 400 and 500. */
  datatype Failure =
    | Unauthenticated(why: AuthReason)
    | Forbidden
    | BadRequest(reason: Reason)
    | ServerError

  datatype Result<+T> = Ok(value: T) | Err(failure: Failure)
}
