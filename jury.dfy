/** The jury routes: casting a vote on a case and reading a case's tally.
    The vote table is keyed by the pair (case id, juror id), so a pair has at
    most one vote; the vote route checks for it before inserting. */
module Jury {
  import opened Domain
  import Auth
  import CaseLifecycle

  /** The compound key of the vote table. */
  datatype VoteKey = VoteKey(caseId: int, jurorId: int)

  /** The verdict named by the request body; anything but the two accepted
      spellings is no verdict. */
  function ParseVerdict(raw: string): (v: Option<Verdict>)
    ensures v == Some(Guilty) <==> raw == "GUILTY"
    ensures v == Some(NotGuilty) <==> raw == "NOT_GUILTY"
    ensures v.None? <==> raw != "GUILTY" && raw != "NOT_GUILTY"
  {
    if raw == "GUILTY" then Some(Guilty)
    else if raw == "NOT_GUILTY" then Some(NotGuilty)
    else None
  }

  /** How a verdict is spelled in requests and in the table. */
  function VerdictName(v: Verdict): string
  {
    match v
    case Guilty => "GUILTY"
    case NotGuilty => "NOT_GUILTY"
  }

  lemma VerdictRoundTrip(v: Verdict)
    ensures ParseVerdict(VerdictName(v)) == Some(v)
  {
  }

  /** The outcome of `POST /vote/:caseId`: the verdict to store under
      (caseId, caller's id), or the failure.  Checks run in the handler's
      order: role gate, verdict, case eligibility, existing vote. */
  function CastSpec(user: Option<Principal>, raw: string, caseId: int, cases: map<int, CaseRecord>,
                    votes: map<VoteKey, Verdict>): (r: Result<Verdict>)
    ensures r.Ok? <==> (user.Some? && user.value.role == Juror && ParseVerdict(raw).Some?
                       && caseId in cases && cases[caseId].status == Approved
                       && VoteKey(caseId, user.value.id) !in votes)
    ensures r.Ok? ==> ParseVerdict(raw) == Some(r.value)
    ensures user.None? ==> r == Err(Unauthenticated(NoUser))
    ensures user.Some? && user.value.role != Juror ==> r == Err(Forbidden)
    ensures user.Some? && user.value.role == Juror && ParseVerdict(raw).None? ==> r == Err(BadRequest(InvalidVerdict))
    ensures (user.Some? && user.value.role == Juror && ParseVerdict(raw).Some?
             && (caseId !in cases || cases[caseId].status != Approved))
            ==> r == Err(BadRequest(NotVotable))
    ensures (user.Some? && user.value.role == Juror && ParseVerdict(raw).Some?
             && caseId in cases && cases[caseId].status == Approved
             && VoteKey(caseId, user.value.id) in votes)
            ==> r == Err(BadRequest(AlreadyVoted))
  {
    match Auth.RequireRoles(user, [Juror])
    case Err(f) => Err(f)
    case Ok(juror) =>
      match ParseVerdict(raw)
      case None => Err(BadRequest(InvalidVerdict))
      case Some(verdict) =>
        if caseId !in cases || cases[caseId].status != Approved then Err(BadRequest(NotVotable))
        else if VoteKey(caseId, juror.id) in votes then Err(BadRequest(AlreadyVoted))
        else Ok(verdict)
  }

  /** A bad verdict is refused before either table is consulted: the answer
      is the same whatever the tables hold. */
  lemma VerdictCheckedBeforeStore(user: Option<Principal>, raw: string, caseId: int,
                                  cases: map<int, CaseRecord>, votes: map<VoteKey, Verdict>,
                                  cases': map<int, CaseRecord>, votes': map<VoteKey, Verdict>)
    requires ParseVerdict(raw).None?
    ensures CastSpec(user, raw, caseId, cases, votes) == CastSpec(user, raw, caseId, cases', votes')
  {
  }

  /** A missing case and a case that is not APPROVED get the same answer. */
  lemma MissingAndUnapprovedAlike(user: Option<Principal>, raw: string, caseId: int,
                                  cases: map<int, CaseRecord>, cases': map<int, CaseRecord>,
                                  votes: map<VoteKey, Verdict>)
    requires caseId !in cases
    requires caseId in cases' && cases'[caseId].status != Approved
    ensures CastSpec(user, raw, caseId, cases, votes) == CastSpec(user, raw, caseId, cases', votes)
  {
  }

  /** Once a juror's vote on a case is stored, every later vote by that
      juror on that case fails, whatever verdict it names. */
  lemma NoSecondVote(juror: Principal, raw: string, raw': string, caseId: int,
                     cases: map<int, CaseRecord>, votes: map<VoteKey, Verdict>)
    requires CastSpec(Some(juror), raw, caseId, cases, votes).Ok?
    ensures var after := votes[VoteKey(caseId, juror.id) := CastSpec(Some(juror), raw, caseId, cases, votes).value];
            CastSpec(Some(juror), raw', caseId, cases, after).Err?
            && (ParseVerdict(raw').Some? ==> CastSpec(Some(juror), raw', caseId, cases, after) == Err(BadRequest(AlreadyVoted)))
  {
  }

  // ---------------------------------------------------------------------
  // Tally
  // ---------------------------------------------------------------------

  datatype Tally = Tally(totalVotes: nat, guilty: nat, notGuilty: nat)

  /** The keys of the votes cast on `caseId`. */
  function Ballots(votes: map<VoteKey, Verdict>, caseId: int): set<VoteKey>
  {
    set k | k in votes && k.caseId == caseId
  }

  /** The keys of the votes cast on `caseId` with verdict `v`. */
  function BallotsFor(votes: map<VoteKey, Verdict>, caseId: int, v: Verdict): set<VoteKey>
  {
    set k | k in votes && k.caseId == caseId && votes[k] == v
  }

  /** The count partition over the votes of one case. */
  function TallyOf(votes: map<VoteKey, Verdict>, caseId: int): Tally
  {
    Tally(|Ballots(votes, caseId)|, |BallotsFor(votes, caseId, Guilty)|, |BallotsFor(votes, caseId, NotGuilty)|)
  }

  /** Every vote is GUILTY or NOT_GUILTY, so the two counts add up to the total. */
  lemma TallyPartition(votes: map<VoteKey, Verdict>, caseId: int)
    ensures TallyOf(votes, caseId).guilty + TallyOf(votes, caseId).notGuilty == TallyOf(votes, caseId).totalVotes
  {
    var all, g, n := Ballots(votes, caseId), BallotsFor(votes, caseId, Guilty), BallotsFor(votes, caseId, NotGuilty);
    assert all == g + n;
    assert g * n == {};
  }

  /** `GET /results/:caseId`: jurors and judges get the tally of the votes
      on `caseId`.  Nothing else is checked: not that the case exists, and
      not that a juror asking has voted on it. */
  function Results(user: Option<Principal>, votes: map<VoteKey, Verdict>, caseId: int): (r: Result<Tally>)
    ensures r.Ok? <==> user.Some? && user.value.role in {Juror, Judge}
    ensures user.None? ==> r == Err(Unauthenticated(NoUser))
    ensures user.Some? && user.value.role !in {Juror, Judge} ==> r == Err(Forbidden)
    ensures r.Ok? ==> r.value.totalVotes == |set k | k in votes && k.caseId == caseId|
    ensures r.Ok? ==> r.value.guilty == |set k | k in votes && k.caseId == caseId && votes[k] == Guilty|
    ensures r.Ok? ==> r.value.notGuilty == |set k | k in votes && k.caseId == caseId && votes[k] == NotGuilty|
    ensures r.Ok? ==> r.value.guilty + r.value.notGuilty == r.value.totalVotes
  {
    match Auth.RequireRoles(user, [Juror, Judge])
    case Err(f) => Err(f)
    case Ok(_) =>
      TallyPartition(votes, caseId);
      Ok(TallyOf(votes, caseId))
  }

  /** A juror who has not voted on a case still gets its tally. */
  lemma ResultsNotGatedOnVoting(juror: Principal, votes: map<VoteKey, Verdict>, caseId: int)
    requires juror.role == Juror
    requires VoteKey(caseId, juror.id) !in votes
    ensures Results(Some(juror), votes, caseId) == Ok(TallyOf(votes, caseId))
  {
  }

  /** Inserting a vote under a fresh key adds that key to the ballots of
      its own case, and to those of its verdict, and to no others. */
  lemma InsertBallot(votes: map<VoteKey, Verdict>, key: VoteKey, v: Verdict, c: int, w: Verdict)
    requires key !in votes
    ensures Ballots(votes[key := v], c) == Ballots(votes, c) + (if key.caseId == c then {key} else {})
    ensures BallotsFor(votes[key := v], c, w) == BallotsFor(votes, c, w) + (if key.caseId == c && v == w then {key} else {})
  {
  }

  /** The tally after inserting a vote under a fresh key: one more ballot,
      of its verdict, for its own case; every other case as before. */
  lemma InsertTally(votes: map<VoteKey, Verdict>, key: VoteKey, v: Verdict, c: int)
    requires key !in votes
    ensures c == key.caseId ==>
              TallyOf(votes[key := v], c) == Tally(TallyOf(votes, c).totalVotes + 1,
                                                   TallyOf(votes, c).guilty + (if v == Guilty then 1 else 0),
                                                   TallyOf(votes, c).notGuilty + (if v == NotGuilty then 1 else 0))
    ensures c != key.caseId ==> TallyOf(votes[key := v], c) == TallyOf(votes, c)
  {
    InsertBallot(votes, key, v, c, Guilty);
    InsertBallot(votes, key, v, c, NotGuilty);
  }

  /** A successful vote on `caseId` adds one to that case's total and to the
      count of its verdict, and leaves the tally of every other case alone. */
  lemma CastAddsOneBallot(user: Option<Principal>, raw: string, caseId: int,
                          cases: map<int, CaseRecord>, votes: map<VoteKey, Verdict>, other: int)
    requires CastSpec(user, raw, caseId, cases, votes).Ok?
    ensures var v := CastSpec(user, raw, caseId, cases, votes).value;
            var after := votes[VoteKey(caseId, user.value.id) := v];
            var t := TallyOf(votes, caseId);
            TallyOf(after, caseId) == Tally(t.totalVotes + 1,
                                            t.guilty + (if v == Guilty then 1 else 0),
                                            t.notGuilty + (if v == NotGuilty then 1 else 0))
            && (other != caseId ==> TallyOf(after, other) == TallyOf(votes, other))
  {
    var v := CastSpec(user, raw, caseId, cases, votes).value;
    var key := VoteKey(caseId, user.value.id);
    InsertTally(votes, key, v, caseId);
    InsertTally(votes, key, v, other);
  }

  // ---------------------------------------------------------------------
  // The vote table
  // ---------------------------------------------------------------------

  class VoteStore {
    var votes: map<VoteKey, Verdict>

    constructor ()
      ensures votes == map[]
    {
      votes := map[];
    }

    /** `POST /vote/:caseId`: look the case up, look the (case, juror) vote
        up, and insert only when both checks pass. */
    method Cast(user: Option<Principal>, raw: string, caseId: int, cases: CaseLifecycle.CaseStore)
      returns (r: Result<Verdict>)
      modifies this
      ensures r == CastSpec(user, raw, caseId, cases.rows, old(votes))
      ensures votes == if r.Ok? then old(votes)[VoteKey(caseId, user.value.id) := r.value] else old(votes)
    {
      var gate := Auth.RequireRoles(user, [Juror]);
      if gate.Err? {
        return Err(gate.failure);
      }
      var verdict := ParseVerdict(raw);
      if verdict.None? {
        return Err(BadRequest(InvalidVerdict));
      }
      var courtCase := if caseId in cases.rows then Some(cases.rows[caseId]) else None;
      if courtCase.None? || courtCase.value.status != Approved {
        return Err(BadRequest(NotVotable));
      }
      var key := VoteKey(caseId, gate.value.id);
      if key in votes {
        return Err(BadRequest(AlreadyVoted));
      }
      votes := votes[key := verdict.value];
      r := Ok(verdict.value);
    }
  }
}
