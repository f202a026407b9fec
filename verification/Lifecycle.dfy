/**
 The status paths that one proof, review or dispute request walks.  A request
 is refused when no path starts at the current status; otherwise every hop of
 the path is an edge of the transition table.
 */
module Lifecycle {
  import opened Results
  import A = AgreementMachine
  import M = MilestoneMachine

  datatype ProofStatus = Submitted | UnderReview | Accepted | Rejected | NeedsChanges | ProofDisputed

  datatype Decision = ApproveProof | RejectProof | RequestChanges

  datatype Resolution = Release | Refund | Split(workerAmount: nat, clientAmount: nat)

  function ProofStatusFor(decision: Decision): ProofStatus {
    match decision
    case ApproveProof => Accepted
    case RejectProof => Rejected
    case RequestChanges => NeedsChanges
  }

  function AgreementSubmissionPath(status: A.Status): Option<seq<A.Status>> {
    if status == A.Funded || status == A.Rejected then Some([A.InProgress, A.ProofSubmitted])
    else if status == A.InProgress then Some([A.ProofSubmitted])
    else None
  }

  function MilestoneSubmissionPath(status: M.Status): Option<seq<M.Status>> {
    if status == M.Funded || status == M.Rejected then Some([M.InProgress, M.ProofSubmitted])
    else if status == M.InProgress then Some([M.ProofSubmitted])
    else None
  }

  function AgreementReviewPath(status: A.Status, decision: Decision): Option<seq<A.Status>> {
    if status != A.ProofSubmitted && status != A.UnderReview then None
    else
      var start := if status == A.ProofSubmitted then [A.UnderReview] else [];
      match decision
      case ApproveProof => Some(start + [A.Approved])
      case RejectProof => Some(start + [A.Rejected])
      case RequestChanges => Some(start + [A.Rejected, A.InProgress])
  }

  function MilestoneReviewPath(status: M.Status, decision: Decision): Option<seq<M.Status>> {
    if status != M.ProofSubmitted && status != M.UnderReview then None
    else
      var start := if status == M.ProofSubmitted then [M.UnderReview] else [];
      match decision
      case ApproveProof => Some(start + [M.Approved])
      case RejectProof => Some(start + [M.Rejected])
      case RequestChanges => Some(start + [M.Rejected, M.InProgress])
  }

  function AgreementDisputePath(status: A.Status): Option<seq<A.Status>> {
    if status in {A.Funded, A.InProgress, A.UnderReview} then Some([A.Disputed])
    else if status == A.ProofSubmitted then Some([A.UnderReview, A.Disputed])
    else None
  }

  function MilestoneDisputePath(status: M.Status): Option<seq<M.Status>> {
    if status in {M.Funded, M.InProgress, M.UnderReview} then Some([M.Disputed])
    else if status == M.ProofSubmitted then Some([M.UnderReview, M.Disputed])
    else None
  }

  function AgreementResolutionPath(status: A.Status, resolution: Resolution): Option<seq<A.Status>> {
    if status != A.Disputed then None
    else if resolution == Release then Some([A.Approved])
    else Some([])
  }

  function MilestoneResolutionPath(status: M.Status, resolution: Resolution): Option<seq<M.Status>> {
    if status != M.Disputed then None
    else if resolution == Release then Some([M.Approved])
    else Some([])
  }

  /** Every hop of the path is an edge of the table. */
  predicate Walkable<S(==)>(table: S -> set<S>, from: S, path: seq<S>) {
    path == [] || (path[0] in table(from) && Walkable(table, path[0], path[1..]))
  }

  const AGREEMENT_TABLE: A.Status -> set<A.Status> := s => A.Successors(s)
  const MILESTONE_TABLE: M.Status -> set<M.Status> := s => M.Successors(s)

  lemma WalkFrom<S>(table: S -> set<S>, from: S, x: S, rest: seq<S>)
    ensures Walkable(table, from, [x] + rest) <==> x in table(from) && Walkable(table, x, rest)
  {
    assert ([x] + rest)[1..] == rest;
  }

  lemma ShortWalks<S>(table: S -> set<S>, from: S, x: S, y: S, z: S)
    ensures Walkable(table, from, [])
    ensures Walkable(table, from, [x]) <==> x in table(from)
    ensures Walkable(table, from, [x, y]) <==> x in table(from) && y in table(x)
    ensures Walkable(table, from, [x, y, z]) <==> x in table(from) && y in table(x) && z in table(y)
  {
    assert [x] + [] == [x] && [y] + [] == [y] && [z] + [] == [z] && [y] + [z] == [y, z];
    assert [x] + [y] == [x, y] && [x] + [y, z] == [x, y, z];
    WalkFrom(table, y, z, []);
    WalkFrom(table, x, y, []);
    WalkFrom(table, x, y, [z]);
    WalkFrom(table, from, x, []);
    WalkFrom(table, from, x, [y]);
    WalkFrom(table, from, x, [y, z]);
  }

  /** Whatever work request starts at whatever agreement status, it walks the transition table. */
  lemma AgreementPathsFollowTable(status: A.Status, decision: Decision, resolution: Resolution)
    ensures AgreementSubmissionPath(status).Some? ==>
              Walkable(AGREEMENT_TABLE, status, AgreementSubmissionPath(status).value)
    ensures AgreementReviewPath(status, decision).Some? ==>
              Walkable(AGREEMENT_TABLE, status, AgreementReviewPath(status, decision).value)
    ensures AgreementDisputePath(status).Some? ==>
              Walkable(AGREEMENT_TABLE, status, AgreementDisputePath(status).value)
    ensures AgreementResolutionPath(status, resolution).Some? ==>
              Walkable(AGREEMENT_TABLE, status, AgreementResolutionPath(status, resolution).value)
  {
    hide Walkable;
    ShortWalks(AGREEMENT_TABLE, status, A.InProgress, A.ProofSubmitted, A.Draft);
    ShortWalks(AGREEMENT_TABLE, status, A.ProofSubmitted, A.Draft, A.Draft);
    ShortWalks(AGREEMENT_TABLE, status, A.UnderReview, A.Approved, A.Draft);
    ShortWalks(AGREEMENT_TABLE, status, A.UnderReview, A.Rejected, A.InProgress);
    ShortWalks(AGREEMENT_TABLE, status, A.UnderReview, A.Disputed, A.Draft);
    ShortWalks(AGREEMENT_TABLE, status, A.Approved, A.Draft, A.Draft);
    ShortWalks(AGREEMENT_TABLE, status, A.Rejected, A.InProgress, A.Draft);
    ShortWalks(AGREEMENT_TABLE, status, A.Disputed, A.Draft, A.Draft);
    assert [A.UnderReview] + [A.Approved] == [A.UnderReview, A.Approved];
    assert [A.UnderReview] + [A.Rejected] == [A.UnderReview, A.Rejected];
    assert [A.UnderReview] + [A.Rejected, A.InProgress] == [A.UnderReview, A.Rejected, A.InProgress];
    assert [] + [A.Approved] == [A.Approved] && [] + [A.Rejected] == [A.Rejected];
    assert [] + [A.Rejected, A.InProgress] == [A.Rejected, A.InProgress];
  }

  lemma MilestonePathsFollowTable(status: M.Status, decision: Decision, resolution: Resolution)
    ensures MilestoneSubmissionPath(status).Some? ==>
              Walkable(MILESTONE_TABLE, status, MilestoneSubmissionPath(status).value)
    ensures MilestoneReviewPath(status, decision).Some? ==>
              Walkable(MILESTONE_TABLE, status, MilestoneReviewPath(status, decision).value)
    ensures MilestoneDisputePath(status).Some? ==>
              Walkable(MILESTONE_TABLE, status, MilestoneDisputePath(status).value)
    ensures MilestoneResolutionPath(status, resolution).Some? ==>
              Walkable(MILESTONE_TABLE, status, MilestoneResolutionPath(status, resolution).value)
  {
    hide Walkable;
    ShortWalks(MILESTONE_TABLE, status, M.InProgress, M.ProofSubmitted, M.Pending);
    ShortWalks(MILESTONE_TABLE, status, M.ProofSubmitted, M.Pending, M.Pending);
    ShortWalks(MILESTONE_TABLE, status, M.UnderReview, M.Approved, M.Pending);
    ShortWalks(MILESTONE_TABLE, status, M.UnderReview, M.Rejected, M.InProgress);
    ShortWalks(MILESTONE_TABLE, status, M.UnderReview, M.Disputed, M.Pending);
    ShortWalks(MILESTONE_TABLE, status, M.Approved, M.Pending, M.Pending);
    ShortWalks(MILESTONE_TABLE, status, M.Rejected, M.InProgress, M.Pending);
    ShortWalks(MILESTONE_TABLE, status, M.Disputed, M.Pending, M.Pending);
    assert [M.UnderReview] + [M.Approved] == [M.UnderReview, M.Approved];
    assert [M.UnderReview] + [M.Rejected] == [M.UnderReview, M.Rejected];
    assert [M.UnderReview] + [M.Rejected, M.InProgress] == [M.UnderReview, M.Rejected, M.InProgress];
    assert [] + [M.Approved] == [M.Approved] && [] + [M.Rejected] == [M.Rejected];
    assert [] + [M.Rejected, M.InProgress] == [M.Rejected, M.InProgress];
  }
}
