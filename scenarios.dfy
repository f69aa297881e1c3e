/** Client code driving the routes through their contracts only: each
    method is a short request sequence whose answers follow from the
    specifications of the stores and queries. */
module Scenarios {
  import opened Domain
  import CaseLifecycle
  import Jury

  /** A plaintiff submits, a juror cannot approve, the judge approves, a
      juror votes GUILTY and reads a tally of one guilty vote; the juror's
      second vote is refused and the first verdict stays. */
  method SubmitApproveVoteTally()
  {
    var cases := new CaseLifecycle.CaseStore();
    var votes := new Jury.VoteStore();
    var plaintiff := Principal(1, Plaintiff, "Remy");
    var judge := Principal(2, Judge, "Skinner");
    var juror := Principal(3, Juror, "Colette");

    var submitted := cases.Submit(Some(plaintiff), CaseLifecycle.Submission("Stolen recipe", "It was mine", "Notes"), None);
    assert submitted.Ok? && submitted.value.id == 1 && submitted.value.status == Pending;
    assert submitted.value.evidenceFile == None && submitted.value.submittedById == 1;

    var early := votes.Cast(Some(juror), "GUILTY", 1, cases);
    assert early == Err(BadRequest(NotVotable));

    var refused := cases.Approve(Some(juror), 1);
    assert refused == Err(Forbidden);
    assert cases.rows[1].status == Pending;

    var approved := cases.Approve(Some(judge), 1);
    assert approved.Ok? && cases.rows[1].status == Approved;

    var cast := votes.Cast(Some(juror), "GUILTY", 1, cases);
    assert cast == Ok(Guilty);
    assert votes.votes == map[Jury.VoteKey(1, 3) := Guilty];

    var tally := Jury.Results(Some(juror), votes.votes, 1);
    assert Jury.Ballots(votes.votes, 1) == {Jury.VoteKey(1, 3)};
    assert Jury.BallotsFor(votes.votes, 1, Guilty) == {Jury.VoteKey(1, 3)};
    assert Jury.BallotsFor(votes.votes, 1, NotGuilty) == {};
    assert tally == Ok(Jury.Tally(1, 1, 0));

    var again := votes.Cast(Some(juror), "NOT_GUILTY", 1, cases);
    assert again == Err(BadRequest(AlreadyVoted));
    assert votes.votes[Jury.VoteKey(1, 3)] == Guilty;
  }

  /** A submission with an empty field or a disallowed file creates nothing,
      and the next good submission still gets the next id. */
  method RefusedSubmissionsCreateNothing()
  {
    var cases := new CaseLifecycle.CaseStore();
    var defendant := Principal(5, Defendant, "Linguini");

    var empty := cases.Submit(Some(defendant), CaseLifecycle.Submission("", "argument", "evidence"), None);
    assert empty == Err(BadRequest(MissingFields));
    var gif := cases.Submit(Some(defendant), CaseLifecycle.Submission("t", "a", "e"),
                            Some(CaseLifecycle.Upload("image/gif", "f1")));
    assert !CaseLifecycle.AcceptsMime("image/gif");
    // The store follows the corrected upload stage; the code as written answers this request with a 500.
    assert gif == Err(BadRequest(FileType));
    assert CaseLifecycle.SubmitAsWritten(Some(defendant), CaseLifecycle.Submission("t", "a", "e"),
                                         Some(CaseLifecycle.Upload("image/gif", "f1")), 1) == Err(ServerError);
    assert cases.rows == map[] && cases.nextId == 1;

    var pdf := cases.Submit(Some(defendant), CaseLifecycle.Submission("t", "a", "e"),
                            Some(CaseLifecycle.Upload("application/pdf", "f2")));
    assert pdf.Ok? && pdf.value.id == 1 && pdf.value.evidenceFile == Some("f2");
  }
}
