/** The case routes: submitting a case (with an optional evidence upload),
    listing and searching cases, and the judge's edit, delete, approve and
    reject actions.  The case table is a map from id to record with an
    auto-increment counter; every route first consults the role gate. */
module CaseLifecycle {
  import opened Domain
  import Auth
  import Text

  // ---------------------------------------------------------------------
  // Evidence upload
  // ---------------------------------------------------------------------

  /** The MIME types the upload filter lets through. */
  const AllowedTypes: seq<string> := ["application/pdf", "text/plain", "image/png", "image/jpeg"]

  /** A file attached to a submission: its declared MIME type and the name
      under which the upload middleware stored it. */
  datatype Upload = Upload(mimetype: string, filename: string)

  /** The upload filter's whitelist test. */
  function AcceptsMime(mimetype: string): (ok: bool)
    ensures ok <==> mimetype == "application/pdf" || mimetype == "text/plain"
                    || mimetype == "image/png" || mimetype == "image/jpeg"
  {
    mimetype in AllowedTypes
  }

  /** The upload stage AS WRITTEN.  The filter rejects a file by handing an
      error to the middleware chain, which skips the route handler (and its
      catch block) and ends in the framework's default error handler: a 500. */
  function UploadAsWritten(file: Option<Upload>): (r: Result<Option<string>>)
    ensures r.Ok? <==> file.None? || AcceptsMime(file.value.mimetype)
    ensures r.Err? ==> r.failure == ServerError
    ensures r.Ok? && file.Some? ==> r.value == Some(file.value.filename)
    ensures file.None? ==> r == Ok(None)
  {
    match file
    case None => Ok(None)
    case Some(f) => if AcceptsMime(f.mimetype) then Ok(Some(f.filename)) else Err(ServerError)
  }

  /** A submission whose file is a GIF is answered with a server error as
      written, not with the 400 that the submit handler reserves for it. */
  lemma GifUploadIsServerErrorAsWritten()
    ensures UploadAsWritten(Some(Upload("image/gif", "evidence"))) == Err(ServerError)
    ensures UploadAsWritten(Some(Upload("image/gif", "evidence"))) != Err(BadRequest(FileType))
  {
  }

  /** The upload stage as the submit handler intends it: a rejected file is
      a 400 naming the allowed types; an accepted one is recorded by its
      stored name; no file at all is recorded as none. */
  function UploadedFile(file: Option<Upload>): (r: Result<Option<string>>)
    ensures r.Ok? <==> file.None? || AcceptsMime(file.value.mimetype)
    ensures r.Err? ==> r.failure == BadRequest(FileType)
    ensures r.Ok? && file.Some? ==> r.value == Some(file.value.filename)
    ensures file.None? ==> r == Ok(None)
  {
    match file
    case None => Ok(None)
    case Some(f) => if AcceptsMime(f.mimetype) then Ok(Some(f.filename)) else Err(BadRequest(FileType))
  }

  // ---------------------------------------------------------------------
  // The case table
  // ---------------------------------------------------------------------

  /** Every row is stored under its own id. */
  ghost predicate Keyed(rows: map<int, CaseRecord>)
  {
    forall id :: id in rows ==> rows[id].id == id
  }

  /** The table invariant: rows keyed by id, every id in [1, bound). */
  ghost predicate Indexed(rows: map<int, CaseRecord>, bound: int)
  {
    Keyed(rows) && forall id :: id in rows ==> 1 <= id < bound
  }

  /** The text fields of a submission; an absent field is the empty string. */
  datatype Submission = Submission(title: string, argument: string, evidenceText: string)

  /** The outcome of `/submit` when the next id to hand out is `id`: the
      new record, or the failure.  Checks run in the order of the route's
      middleware: role gate, upload filter, then the required fields. */
  function SubmitSpec(user: Option<Principal>, form: Submission, file: Option<Upload>, id: int): (r: Result<CaseRecord>)
    ensures r.Ok? <==> (user.Some? && user.value.role in {Defendant, Plaintiff}
                       && (file.None? || AcceptsMime(file.value.mimetype))
                       && form.title != "" && form.argument != "" && form.evidenceText != "")
    ensures user.None? ==> r == Err(Unauthenticated(NoUser))
    ensures user.Some? && user.value.role !in {Defendant, Plaintiff} ==> r == Err(Forbidden)
    ensures user.Some? && user.value.role in {Defendant, Plaintiff} && file.Some? && !AcceptsMime(file.value.mimetype)
            ==> r == Err(BadRequest(FileType))
    ensures (user.Some? && user.value.role in {Defendant, Plaintiff} && (file.None? || AcceptsMime(file.value.mimetype))
             && (form.title == "" || form.argument == "" || form.evidenceText == ""))
            ==> r == Err(BadRequest(MissingFields))
    ensures r.Ok? ==> r.value.id == id && r.value.status == Pending && r.value.submittedById == user.value.id
                      && r.value.title == form.title && r.value.argument == form.argument
                      && r.value.evidenceText == form.evidenceText
                      && r.value.evidenceFile == (if file.Some? then Some(file.value.filename) else None)
  {
    match Auth.RequireRoles(user, [Defendant, Plaintiff])
    case Err(f) => Err(f)
    case Ok(caller) =>
      match UploadedFile(file)
      case Err(f) => Err(f)
      case Ok(stored) =>
        if form.title == "" || form.argument == "" || form.evidenceText == "" then
          Err(BadRequest(MissingFields))
        else
          Ok(CaseRecord(id, form.title, form.argument, form.evidenceText, stored, Pending, caller.id))
  }

  /** The outcome of `/submit` AS WRITTEN: a rejected file never reaches the
      handler, so it is a 500 whatever the form holds. */
  function SubmitAsWritten(user: Option<Principal>, form: Submission, file: Option<Upload>, id: int)
    : (r: Result<CaseRecord>)
    ensures r.Ok? <==> (user.Some? && user.value.role in {Defendant, Plaintiff}
                       && (file.None? || AcceptsMime(file.value.mimetype))
                       && form.title != "" && form.argument != "" && form.evidenceText != "")
    ensures user.None? ==> r == Err(Unauthenticated(NoUser))
    ensures user.Some? && user.value.role !in {Defendant, Plaintiff} ==> r == Err(Forbidden)
    ensures user.Some? && user.value.role in {Defendant, Plaintiff} && file.Some? && !AcceptsMime(file.value.mimetype)
            ==> r == Err(ServerError)
    ensures (user.Some? && user.value.role in {Defendant, Plaintiff} && (file.None? || AcceptsMime(file.value.mimetype))
             && (form.title == "" || form.argument == "" || form.evidenceText == ""))
            ==> r == Err(BadRequest(MissingFields))
    ensures r.Ok? ==> r.value.id == id && r.value.status == Pending && r.value.submittedById == user.value.id
                      && r.value.title == form.title && r.value.argument == form.argument
                      && r.value.evidenceText == form.evidenceText
                      && r.value.evidenceFile == (if file.Some? then Some(file.value.filename) else None)
  {
    match Auth.RequireRoles(user, [Defendant, Plaintiff])
    case Err(f) => Err(f)
    case Ok(caller) =>
      match UploadAsWritten(file)
      case Err(f) => Err(f)
      case Ok(stored) =>
        if form.title == "" || form.argument == "" || form.evidenceText == "" then
          Err(BadRequest(MissingFields))
        else
          Ok(CaseRecord(id, form.title, form.argument, form.evidenceText, stored, Pending, caller.id))
  }

  /** The submit route as written and as intended differ exactly on a
      permitted caller's rejected file: 500 instead of 400 FileType. */
  lemma SubmitDiffersOnlyOnRejectedFile(user: Option<Principal>, form: Submission, file: Option<Upload>, id: int)
    ensures var rejected := user.Some? && user.value.role in {Defendant, Plaintiff}
                            && file.Some? && !AcceptsMime(file.value.mimetype);
            (rejected ==> SubmitAsWritten(user, form, file, id) == Err(ServerError)
                          && SubmitSpec(user, form, file, id) == Err(BadRequest(FileType)))
            && (!rejected ==> SubmitAsWritten(user, form, file, id) == SubmitSpec(user, form, file, id))
  {
  }

  /** A partial update of a case: each present field replaces the stored one. */
  datatype Patch = Patch(title: Option<string>, argument: Option<string>, evidenceText: Option<string>,
                         status: Option<Status>)

  function Patched(c: CaseRecord, p: Patch): (d: CaseRecord)
    ensures d.id == c.id && d.submittedById == c.submittedById && d.evidenceFile == c.evidenceFile
    ensures d.title == (if p.title.Some? then p.title.value else c.title)
    ensures d.argument == (if p.argument.Some? then p.argument.value else c.argument)
    ensures d.evidenceText == (if p.evidenceText.Some? then p.evidenceText.value else c.evidenceText)
    ensures d.status == (if p.status.Some? then p.status.value else c.status)
    ensures p == Patch(None, None, None, None) ==> d == c
  {
    c.(title := if p.title.Some? then p.title.value else c.title,
       argument := if p.argument.Some? then p.argument.value else c.argument,
       evidenceText := if p.evidenceText.Some? then p.evidenceText.value else c.evidenceText,
       status := if p.status.Some? then p.status.value else c.status)
  }

  /** The judge-only actions on an existing case. */
  datatype JudgeAction = Edit(patch: Patch) | Approve | Reject | Delete

  /** The table after a judge action on the case `id`. */
  function Revised(rows: map<int, CaseRecord>, id: int, act: JudgeAction): map<int, CaseRecord>
    requires id in rows
  {
    match act
    case Edit(p) => rows[id := Patched(rows[id], p)]
    case Approve => rows[id := rows[id].(status := Approved)]
    case Reject => rows[id := rows[id].(status := Rejected)]
    case Delete => rows - {id}
  }

  /** The outcome of `/edit`, `/delete`, `/approve` and `/reject` on case
      `id`: the new table, or the failure.  Only a judge gets through, and
      only for an id in the table; the action touches that one case. */
  function JudgeSpec(user: Option<Principal>, rows: map<int, CaseRecord>, id: int, act: JudgeAction)
    : (r: Result<map<int, CaseRecord>>)
    ensures r.Ok? <==> user.Some? && user.value.role == Judge && id in rows
    ensures user.None? ==> r == Err(Unauthenticated(NoUser))
    ensures user.Some? && user.value.role != Judge ==> r == Err(Forbidden)
    ensures user.Some? && user.value.role == Judge && id !in rows ==> r == Err(BadRequest(NoSuchCase))
    ensures r.Ok? ==> forall k :: k != id ==> (k in r.value <==> k in rows) && (k in rows ==> r.value[k] == rows[k])
    ensures r.Ok? ==> (id in r.value <==> !act.Delete?)
    ensures r.Ok? && act.Approve? ==> r.value[id] == rows[id].(status := Approved)
    ensures r.Ok? && act.Reject? ==> r.value[id] == rows[id].(status := Rejected)
    ensures r.Ok? && act.Edit? ==> r.value[id] == Patched(rows[id], act.patch)
  {
    match Auth.RequireRoles(user, [Judge])
    case Err(f) => Err(f)
    case Ok(_) => if id !in rows then Err(BadRequest(NoSuchCase)) else Ok(Revised(rows, id, act))
  }

  /** Approving, rejecting or applying the same edit a second time gives the
      table the first application gave. */
  lemma {:induction false} JudgeActionIdempotent(user: Option<Principal>, rows: map<int, CaseRecord>, id: int, act: JudgeAction)
    requires !act.Delete?
    requires JudgeSpec(user, rows, id, act).Ok?
    ensures JudgeSpec(user, JudgeSpec(user, rows, id, act).value, id, act) == JudgeSpec(user, rows, id, act)
  {
    var once := JudgeSpec(user, rows, id, act).value;
    var twice := JudgeSpec(user, once, id, act).value;
    assert twice[id] == once[id];
    assert twice == once;
  }

  /** A deleted case is gone: deleting it again is a 400. */
  lemma DeleteTwiceFails(user: Option<Principal>, rows: map<int, CaseRecord>, id: int)
    requires JudgeSpec(user, rows, id, Delete).Ok?
    ensures JudgeSpec(user, JudgeSpec(user, rows, id, Delete).value, id, Delete) == Err(BadRequest(NoSuchCase))
  {
  }

  /** Judge actions keep the table invariant. */
  lemma JudgeKeepsIndexed(user: Option<Principal>, rows: map<int, CaseRecord>, bound: int, id: int, act: JudgeAction)
    requires Indexed(rows, bound)
    requires JudgeSpec(user, rows, id, act).Ok?
    ensures Indexed(JudgeSpec(user, rows, id, act).value, bound)
  {
  }

  // ---------------------------------------------------------------------
  // Listing and search
  // ---------------------------------------------------------------------

  /** The row selections of `/all` and `/by-name`. */
  datatype Filter = AnyStatus | ApprovedOnly | ApprovedFrom(fragment: string)

  /** The submitter of `c`, looked up in the user table `names` (id to
      name), has a name containing `fragment`, ignoring case. */
  predicate SubmittedByName(names: map<int, string>, c: CaseRecord, fragment: string)
  {
    c.submittedById in names && Text.ContainsIgnoringCase(names[c.submittedById], fragment)
  }

  predicate Selects(f: Filter, c: CaseRecord, names: map<int, string>)
  {
    match f
    case AnyStatus => true
    case ApprovedOnly => c.status == Approved
    case ApprovedFrom(fragment) => c.status == Approved && SubmittedByName(names, c, fragment)
  }

  /** Newest first: ids strictly decrease along the list. */
  ghost predicate Descending(r: seq<CaseRecord>)
  {
    forall i, j :: 0 <= i < j < |r| ==> r[i].id > r[j].id
  }

  /** The rows with ids below `n` that `f` selects, highest id first. */
  function Scan(rows: map<int, CaseRecord>, names: map<int, string>, f: Filter, n: int): (r: seq<CaseRecord>)
    requires Keyed(rows)
    ensures forall i :: 0 <= i < |r| ==> r[i].id in rows && rows[r[i].id] == r[i] && r[i].id < n
                                          && Selects(f, r[i], names)
    ensures forall id :: id in rows && 0 <= id < n && Selects(f, rows[id], names) ==> rows[id] in r
    ensures Descending(r)
    decreases n
  {
    if n <= 0 then []
    else
      var id := n - 1;
      var rest := Scan(rows, names, f, id);
      if id in rows && Selects(f, rows[id], names) then [rows[id]] + rest else rest
  }

  /** Rows that agree below `n` scan alike. */
  lemma {:induction false} ScanAgrees(a: map<int, CaseRecord>, b: map<int, CaseRecord>, names: map<int, string>,
                                     f: Filter, n: int)
    requires Keyed(a) && Keyed(b)
    requires forall id :: 0 <= id < n ==> (id in a <==> id in b) && (id in a ==> a[id] == b[id])
    ensures Scan(a, names, f, n) == Scan(b, names, f, n)
    decreases n
  {
    if n > 0 {
      ScanAgrees(a, b, names, f, n - 1);
    }
  }

  /** `/all`: a juror sees exactly the APPROVED cases, every other role
      sees every case, newest first.  The requested status is not read. */
  function ListAll(rows: map<int, CaseRecord>, bound: int, viewer: Principal, requested: Option<Status>)
    : (r: seq<CaseRecord>)
    requires Indexed(rows, bound)
    ensures forall i :: 0 <= i < |r| ==> r[i].id in rows && rows[r[i].id] == r[i]
    ensures viewer.role == Juror ==> forall i :: 0 <= i < |r| ==> r[i].status == Approved
    ensures forall id :: id in rows ==> (rows[id] in r <==> viewer.role != Juror || rows[id].status == Approved)
    ensures Descending(r)
  {
    Scan(rows, map[], if viewer.role == Juror then ApprovedOnly else AnyStatus, bound)
  }

  /** Whatever status the caller asks for, the listing is the same. */
  lemma ListAllIgnoresRequestedStatus(rows: map<int, CaseRecord>, bound: int, viewer: Principal,
                                      s: Option<Status>, t: Option<Status>)
    requires Indexed(rows, bound)
    ensures ListAll(rows, bound, viewer, s) == ListAll(rows, bound, viewer, t)
  {
  }

  /** `/by-name/:name`: jurors only; exactly the APPROVED cases whose
      submitter's name contains `fragment` ignoring case, newest first. */
  function ByName(user: Option<Principal>, rows: map<int, CaseRecord>, bound: int, names: map<int, string>,
                  fragment: string): (r: Result<seq<CaseRecord>>)
    requires Indexed(rows, bound)
    ensures r.Ok? <==> user.Some? && user.value.role == Juror
    ensures user.None? ==> r == Err(Unauthenticated(NoUser))
    ensures user.Some? && user.value.role != Juror ==> r == Err(Forbidden)
    ensures r.Ok? ==> forall i :: 0 <= i < |r.value| ==>
              r.value[i].id in rows && rows[r.value[i].id] == r.value[i] && r.value[i].status == Approved
              && SubmittedByName(names, r.value[i], fragment)
    ensures r.Ok? ==> forall id :: id in rows ==>
              (rows[id] in r.value <==> rows[id].status == Approved && SubmittedByName(names, rows[id], fragment))
    ensures r.Ok? ==> Descending(r.value)
  {
    match Auth.RequireRoles(user, [Juror])
    case Err(f) => Err(f)
    case Ok(_) => Ok(Scan(rows, names, ApprovedFrom(fragment), bound))
  }

  /** A successful submit puts the new case at the head of a non-juror's
      listing and leaves a juror's listing as it was: the case is PENDING. */
  lemma {:induction false} ListAllAfterSubmit(user: Option<Principal>, form: Submission, file: Option<Upload>,
                                             rows: map<int, CaseRecord>, nextId: int, viewer: Principal,
                                             requested: Option<Status>)
    requires nextId >= 1 && Indexed(rows, nextId)
    requires SubmitSpec(user, form, file, nextId).Ok?
    ensures var c := SubmitSpec(user, form, file, nextId).value;
            Indexed(rows[nextId := c], nextId + 1)
            && ListAll(rows[nextId := c], nextId + 1, viewer, requested)
               == (if viewer.role == Juror then ListAll(rows, nextId, viewer, requested)
                   else [c] + ListAll(rows, nextId, viewer, requested))
  {
    var c := SubmitSpec(user, form, file, nextId).value;
    var after := rows[nextId := c];
    var f := if viewer.role == Juror then ApprovedOnly else AnyStatus;
    assert Indexed(after, nextId + 1);
    ScanAgrees(after, rows, map[], f, nextId);
  }

  /** Once approved a case shows in every juror's listing; once rejected it
      shows in none. */
  lemma DecisionControlsJurorView(judge: Principal, rows: map<int, CaseRecord>, bound: int, id: int,
                                  act: JudgeAction, juror: Principal, requested: Option<Status>)
    requires Indexed(rows, bound)
    requires act == Approve || act == Reject
    requires juror.role == Juror
    requires JudgeSpec(Some(judge), rows, id, act).Ok?
    ensures var after := JudgeSpec(Some(judge), rows, id, act).value;
            Indexed(after, bound) && (after[id] in ListAll(after, bound, juror, requested) <==> act == Approve)
  {
  }

  // ---------------------------------------------------------------------
  // The store and its state-changing routes
  // ---------------------------------------------------------------------

  /** The case table: rows by id, and the next id the database will hand
      out (ids are never reused, also after a delete). */
  class CaseStore {
    var rows: map<int, CaseRecord>
    var nextId: int

    ghost predicate Valid()
      reads this
    {
      nextId >= 1 && Indexed(rows, nextId)
    }

    constructor ()
      ensures Valid() && rows == map[] && nextId == 1
    {
      rows := map[];
      nextId := 1;
    }

    /** `POST /submit`. */
    method Submit(user: Option<Principal>, form: Submission, file: Option<Upload>) returns (r: Result<CaseRecord>)
      requires Valid()
      modifies this
      ensures Valid()
      ensures r == SubmitSpec(user, form, file, old(nextId))
      ensures r.Ok? ==> r.value.id !in old(rows) && rows == old(rows)[r.value.id := r.value]
                        && nextId == old(nextId) + 1
      ensures r.Err? ==> rows == old(rows) && nextId == old(nextId)
    {
      var gate := Auth.RequireRoles(user, [Defendant, Plaintiff]);
      if gate.Err? {
        return Err(gate.failure);
      }
      var stored := UploadedFile(file);
      if stored.Err? {
        return Err(stored.failure);
      }
      if form.title == "" || form.argument == "" || form.evidenceText == "" {
        return Err(BadRequest(MissingFields));
      }
      var created := CaseRecord(nextId, form.title, form.argument, form.evidenceText, stored.value, Pending,
                                gate.value.id);
      rows := rows[nextId := created];
      nextId := nextId + 1;
      r := Ok(created);
    }

    /** `PATCH /edit/:id`. */
    method Edit(user: Option<Principal>, id: int, patch: Patch) returns (r: Result<CaseRecord>)
      requires Valid()
      modifies this
      ensures Valid() && nextId == old(nextId)
      ensures r.Err? ==> JudgeSpec(user, old(rows), id, JudgeAction.Edit(patch)) == Err(r.failure) && rows == old(rows)
      ensures r.Ok? ==> JudgeSpec(user, old(rows), id, JudgeAction.Edit(patch)) == Ok(rows) && id in rows && r.value == rows[id]
    {
      var gate := Auth.RequireRoles(user, [Judge]);
      if gate.Err? {
        return Err(gate.failure);
      }
      if id !in rows {
        return Err(BadRequest(NoSuchCase));
      }
      var updated := Patched(rows[id], patch);
      rows := rows[id := updated];
      r := Ok(updated);
    }

    /** `DELETE /delete/:id`. */
    method Delete(user: Option<Principal>, id: int) returns (r: Result<()>)
      requires Valid()
      modifies this
      ensures Valid() && nextId == old(nextId)
      ensures r.Err? ==> JudgeSpec(user, old(rows), id, JudgeAction.Delete) == Err(r.failure) && rows == old(rows)
      ensures r.Ok? ==> JudgeSpec(user, old(rows), id, JudgeAction.Delete) == Ok(rows)
    {
      var gate := Auth.RequireRoles(user, [Judge]);
      if gate.Err? {
        return Err(gate.failure);
      }
      if id !in rows {
        return Err(BadRequest(NoSuchCase));
      }
      rows := rows - {id};
      r := Ok(());
    }

    /** `PATCH /approve/:id`. */
    method Approve(user: Option<Principal>, id: int) returns (r: Result<CaseRecord>)
      requires Valid()
      modifies this
      ensures Valid() && nextId == old(nextId)
      ensures r.Err? ==> JudgeSpec(user, old(rows), id, JudgeAction.Approve) == Err(r.failure) && rows == old(rows)
      ensures r.Ok? ==> JudgeSpec(user, old(rows), id, JudgeAction.Approve) == Ok(rows) && id in rows
                        && r.value == rows[id]
    {
      var gate := Auth.RequireRoles(user, [Judge]);
      if gate.Err? {
        return Err(gate.failure);
      }
      if id !in rows {
        return Err(BadRequest(NoSuchCase));
      }
      var updated := rows[id].(status := Approved);
      rows := rows[id := updated];
      r := Ok(updated);
    }

    /** `PATCH /reject/:id`. */
    method Reject(user: Option<Principal>, id: int) returns (r: Result<CaseRecord>)
      requires Valid()
      modifies this
      ensures Valid() && nextId == old(nextId)
      ensures r.Err? ==> JudgeSpec(user, old(rows), id, JudgeAction.Reject) == Err(r.failure) && rows == old(rows)
      ensures r.Ok? ==> JudgeSpec(user, old(rows), id, JudgeAction.Reject) == Ok(rows) && id in rows
                        && r.value == rows[id]
    {
      var gate := Auth.RequireRoles(user, [Judge]);
      if gate.Err? {
        return Err(gate.failure);
      }
      if id !in rows {
        return Err(BadRequest(NoSuchCase));
      }
      var updated := rows[id].(status := Rejected);
      rows := rows[id := updated];
      r := Ok(updated);
    }
  }
}
