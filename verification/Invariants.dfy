/** What every request keeps, and the proof that each one does. */
module Invariants {
  import opened Results
  import opened Lifecycle
  import opened Ledger
  import opened Sums
  import opened Requests
  import A = AgreementMachine
  import M = MilestoneMachine
  import E = EscrowMachine
  import R = Reconciliation

  // ---------------------------------------------------------------- the invariants

  ghost predicate KnownScope(db: Ledger, scope: Scope) {
    && scope.agreement in db.agreements
    && (scope.milestone.Some? ==> MilestoneOf(db, scope.milestone.value, scope.agreement))
  }

  ghost predicate KnownOperation(db: Ledger, op: Operation) {
    op.escrow in db.escrows && (op.kind != LockTx ==> db.escrows[op.escrow].status != E.NotCreated)
  }

  /** Rows point at rows that exist, and inside one agreement. */
  ghost predicate References(db: Ledger) {
    && (forall m | m in db.milestones :: db.milestones[m].agreement in db.agreements)
    && (forall p | p in db.proofs :: KnownScope(db, Scope(db.proofs[p].agreement, Some(db.proofs[p].milestone))))
    && (forall d | d in db.disputes :: KnownScope(db, Scope(db.disputes[d].agreement, Some(db.disputes[d].milestone))))
    && (forall e | e in db.escrows :: KnownScope(db, db.escrows[e].scope))
    && (forall op | op in db.transactions :: KnownOperation(db, op))
  }

  lemma KnownHere(db: Ledger, op: Operation)
    requires References(db) && op in db.transactions
    ensures KnownOperation(db, op)
  {
    hide KnownScope, KnownOperation;
  }

  ghost predicate Fits(db: Ledger, escrow: Escrow) {
    KnownScope(db, escrow.scope) && 1 <= escrow.amount <= ScopeAmount(db, escrow.scope)
  }

  /** Amounts stay inside the amount they are carved from. */
  ghost predicate Allocations(db: Ledger) {
    && (forall a | a in db.agreements :: Allocated(db, a) <= db.agreements[a].amount)
    && (forall e | e in db.escrows :: Fits(db, db.escrows[e]))
  }

  /** No two escrows share a settlement scope. */
  ghost predicate OneEscrowPerScope(db: Ledger) {
    forall e, f | e in db.escrows && f in db.escrows && db.escrows[e].scope == db.escrows[f].scope :: e == f
  }

  ghost predicate SharesOut(db: Ledger, dispute: Dispute, e: Id) {
    && dispute.status.Resolved? && dispute.status.resolution.Split?
    && e in db.escrows
    && db.escrows[e].scope == Scope(dispute.agreement, Some(dispute.milestone))
    && db.escrows[e].status != E.NotCreated
    && db.escrows[e].amount == dispute.status.resolution.workerAmount + dispute.status.resolution.clientAmount
  }

  /** A split shares out exactly the escrow of the disputed milestone. */
  ghost predicate SplitsAreExact(db: Ledger) {
    forall d | d in db.disputes && db.disputes[d].status.Resolved? && db.disputes[d].status.resolution.Split? ::
      exists e :: SharesOut(db, db.disputes[d], e)
  }

  /** Someone accepted a proof of the scope, or resolved a dispute of it for the worker. */
  ghost predicate Sanctioned(db: Ledger, scope: Scope) {
    AcceptedProofIn(db, scope) || ReleaseDisputeIn(db, scope)
  }

  /** Nothing is approved without that sanction. */
  ghost predicate ApprovalsAreSanctioned(db: Ledger) {
    && (forall a | a in db.agreements && db.agreements[a].status == A.Approved :: Sanctioned(db, Scope(a, None)))
    && (forall m | m in db.milestones && db.milestones[m].status == M.Approved ::
          Sanctioned(db, Scope(db.milestones[m].agreement, Some(m))))
  }

  /** Every release that was ever reserved had its sanction. */
  ghost predicate ReleasesAreSanctioned(db: Ledger) {
    forall op | op in db.transactions && op.kind == ReleaseTx ::
      op.escrow in db.escrows && Sanctioned(db, db.escrows[op.escrow].scope)
  }

  ghost predicate Reserved(db: Ledger, e: Id, op: Settlement)
    requires e in db.escrows
  {
    db.escrows[e].status in {PendingStatus(op), TerminalStatus(op)} ==> Operation(e, KindOf(op)) in db.transactions
  }

  /** A settlement that is under way or over was reserved. */
  ghost predicate SettlementsAreReserved(db: Ledger) {
    forall e, op | e in db.escrows :: Reserved(db, e, op)
  }

  ghost predicate SettlementsBacked(db: Ledger) {
    ReleasesAreSanctioned(db) && SettlementsAreReserved(db)
  }

  /** Statuses in which an agreement has no business waiting for anybody. */
  const QUIET: set<A.Status> :=
    {A.Draft, A.PendingAcceptance, A.Accepted, A.FundingRequired, A.Funded, A.InProgress, A.Rejected,
     A.Cancelled, A.Expired}

  /** The proofs of the agreement that nobody has judged yet. */
  function Unreviewed(db: Ledger, a: Id): set<Id> {
    set p | p in db.proofs && Awaiting(db.proofs[p]) && db.proofs[p].agreement == a
  }

  function SubmittedMilestones(db: Ledger, a: Id): set<Id> {
    set m | m in db.milestones && db.milestones[m].status == M.ProofSubmitted && db.milestones[m].agreement == a
  }

  function OpenDisputes(db: Ledger, a: Id): set<Id> {
    set d | d in db.disputes && db.disputes[d].status == Open && db.disputes[d].agreement == a
  }

  ghost predicate AtMostOne(ids: set<Id>) {
    forall x, y | x in ids && y in ids :: x == y
  }

  /** A submitted agreement waits for one proof, on its one submitted milestone. */
  ghost predicate WaitsForOne(db: Ledger, a: Id) {
    exists p | p in db.proofs :: Unreviewed(db, a) == {p} && SubmittedMilestones(db, a) == {db.proofs[p].milestone}
  }

  ghost predicate ReviewState(db: Ledger, a: Id)
    requires a in db.agreements
  {
    var status := db.agreements[a].status;
    && AtMostOne(Unreviewed(db, a)) && AtMostOne(SubmittedMilestones(db, a)) && AtMostOne(OpenDisputes(db, a))
    && (status in QUIET ==> Unreviewed(db, a) == {} && SubmittedMilestones(db, a) == {})
    && (status == A.ProofSubmitted ==> WaitsForOne(db, a))
    && (OpenDisputes(db, a) != {} ==> status in {A.Disputed, A.Released, A.Refunded})
  }

  ghost predicate OneReviewAtATime(db: Ledger) {
    forall a | a in db.agreements :: ReviewState(db, a)
  }

  /** The review states are passed through inside one request; no request leaves a row in them. */
  ghost predicate NoneUnderReview(db: Ledger) {
    && (forall a | a in db.agreements :: db.agreements[a].status !in {A.UnderReview, A.ReleasePending})
    && (forall m | m in db.milestones :: db.milestones[m].status != M.UnderReview)
    && (forall p | p in db.proofs :: db.proofs[p].status in {Submitted, Accepted, ProofStatus.Rejected, NeedsChanges})
  }

  /** A proof has the verdict of its only review, and none before it. */
  ghost predicate OneVerdictPerProof(db: Ledger) {
    && (forall r | r in db.reviews ::
          db.reviews[r].proof in db.proofs
          && db.proofs[db.reviews[r].proof].status == ProofStatusFor(db.reviews[r].decision))
    && (forall r, s | r in db.reviews && s in db.reviews && db.reviews[r].proof == db.reviews[s].proof :: r == s)
    && (forall p | p in db.proofs && db.proofs[p].status != Submitted ::
          exists r | r in db.reviews :: db.reviews[r].proof == p)
  }

  ghost predicate Terms(db: Ledger) {
    References(db) && Allocations(db) && OneEscrowPerScope(db) && SplitsAreExact(db)
  }

  ghost predicate ReviewsAreExclusive(db: Ledger) {
    OneReviewAtATime(db) && NoneUnderReview(db) && OneVerdictPerProof(db)
  }

  ghost predicate Inv(db: Ledger) {
    Terms(db) && ApprovalsAreSanctioned(db) && SettlementsBacked(db) && ReviewsAreExclusive(db)
  }

  lemma EmptyLedgerIsFine()
    ensures Inv(EMPTY)
  {
  }

  // ---------------------------------------------------------------- rows keep their terms

  /** Agreements and milestones keep their terms. */
  ghost predicate SameAmounts(db: Ledger, after: Ledger) {
    && after.agreements.Keys == db.agreements.Keys
    && (forall a | a in db.agreements :: after.agreements[a].amount == db.agreements[a].amount)
    && after.milestones.Keys == db.milestones.Keys
    && (forall m | m in db.milestones ::
          after.milestones[m].agreement == db.milestones[m].agreement && after.milestones[m].amount == db.milestones[m].amount)
  }

  ghost predicate SameEscrow(before: Escrow, after: Escrow) {
    && after.scope == before.scope && after.amount == before.amount
    && (after.status == E.NotCreated ==> before.status == E.NotCreated)
  }

  /** So do escrows; only statuses move. */
  ghost predicate SameTerms(db: Ledger, after: Ledger) {
    && SameAmounts(db, after)
    && after.escrows.Keys == db.escrows.Keys
    && (forall e | e in db.escrows :: SameEscrow(db.escrows[e], after.escrows[e]))
  }

  lemma SameAmountsKeepAllocations(db: Ledger, after: Ledger)
    requires SameAmounts(db, after) && Allocations(db)
    requires forall e | e in after.escrows :: Fits(db, after.escrows[e])
    ensures Allocations(after)
  {
    forall a | a in db.agreements ensures MilestoneAmounts(after, a) == MilestoneAmounts(db, a) {
    }
  }

  lemma SameTermsKeepAllocations(db: Ledger, after: Ledger)
    requires SameTerms(db, after) && Allocations(db)
    ensures Allocations(after)
  {
    forall e | e in after.escrows ensures Fits(db, after.escrows[e]) {
      assert Fits(db, db.escrows[e]);
    }
    SameAmountsKeepAllocations(db, after);
  }

  lemma SameTermsKeepScopes(db: Ledger, after: Ledger)
    requires SameTerms(db, after) && OneEscrowPerScope(db)
    ensures OneEscrowPerScope(after)
  {
    forall e, f | e in after.escrows && f in after.escrows && after.escrows[e].scope == after.escrows[f].scope
      ensures e == f
    {
      assert e in db.escrows && f in db.escrows && db.escrows[e].scope == db.escrows[f].scope;
    }
  }

  /** The escrow that a split shares out is kept. */
  lemma KeptEscrowsKeepSplits(db: Ledger, after: Ledger)
    requires SplitsAreExact(db) && after.disputes == db.disputes
    requires forall e | e in db.escrows && db.escrows[e].status != E.NotCreated ::
               e in after.escrows && SameEscrow(db.escrows[e], after.escrows[e])
    ensures SplitsAreExact(after)
  {
    forall d | d in after.disputes && after.disputes[d].status.Resolved? && after.disputes[d].status.resolution.Split?
      ensures exists e :: SharesOut(after, after.disputes[d], e)
    {
      var e :| SharesOut(db, db.disputes[d], e);
      assert SharesOut(after, after.disputes[d], e);
    }
  }

  /** Rows and terms that a larger ledger still has. */
  ghost predicate KeepsTerms(db: Ledger, after: Ledger) {
    && (forall a | a in db.agreements :: a in after.agreements && after.agreements[a].amount == db.agreements[a].amount)
    && (forall m | m in db.milestones :: m in after.milestones
          && after.milestones[m].agreement == db.milestones[m].agreement && after.milestones[m].amount == db.milestones[m].amount)
  }

  lemma FitsStill(db: Ledger, after: Ledger)
    requires KeepsTerms(db, after)
    ensures forall escrow | Fits(db, escrow) :: Fits(after, escrow)
    ensures forall scope | KnownScope(db, scope) :: KnownScope(after, scope)
  {
  }

  lemma ReferencesHold(db: Ledger, after: Ledger)
    requires forall scope | KnownScope(db, scope) :: KnownScope(after, scope)
    requires forall m | m in after.milestones :: after.milestones[m].agreement in after.agreements
    requires forall p | p in after.proofs ::
               KnownScope(db, Scope(after.proofs[p].agreement, Some(after.proofs[p].milestone)))
    requires forall d | d in after.disputes ::
               KnownScope(db, Scope(after.disputes[d].agreement, Some(after.disputes[d].milestone)))
    requires forall e | e in after.escrows :: KnownScope(db, after.escrows[e].scope)
    requires forall op | op in after.transactions :: KnownOperation(after, op)
    ensures References(after)
  {
    hide KnownScope, KnownOperation;
  }

  lemma SameAmountsKeepReferences(db: Ledger, after: Ledger)
    requires SameAmounts(db, after) && References(db)
    requires forall p | p in after.proofs ::
               KnownScope(db, Scope(after.proofs[p].agreement, Some(after.proofs[p].milestone)))
    requires forall d | d in after.disputes ::
               KnownScope(db, Scope(after.disputes[d].agreement, Some(after.disputes[d].milestone)))
    requires forall e | e in after.escrows :: KnownScope(db, after.escrows[e].scope)
    requires forall op | op in after.transactions :: KnownOperation(after, op)
    ensures References(after)
  {
    FitsStill(db, after);
    hide KnownScope, KnownOperation, Fits;
    ReferencesHold(db, after);
  }

  /** Sanctions survive when no verdict and no resolution is lost. */
  lemma SameEvidence(db: Ledger, after: Ledger)
    requires forall p | p in db.proofs && db.proofs[p].status == Accepted :: p in after.proofs && after.proofs[p] == db.proofs[p]
    requires forall d | d in db.disputes && db.disputes[d].status.Resolved? :: d in after.disputes && after.disputes[d] == db.disputes[d]
    ensures forall scope | Sanctioned(db, scope) :: Sanctioned(after, scope)
  {
    forall scope | Sanctioned(db, scope) ensures Sanctioned(after, scope) {
      if p :| p in db.proofs && Accepts(db.proofs[p], scope) {
        assert Accepts(after.proofs[p], scope);
      } else {
        var d :| d in db.disputes && ResolvesToRelease(db.disputes[d], scope);
        assert ResolvesToRelease(after.disputes[d], scope);
      }
    }
  }

  // ---------------------------------------------------------------- moves outside review

  /** The agreement moves that leave its reviews alone. */
  ghost predicate QuietMove(from: A.Status, to: A.Status) {
    || from == to
    || (from in QUIET && to in QUIET)
    || (from in {A.Funded, A.Approved, A.Disputed} && to in {A.Released, A.Refunded})
  }

  /** Agreements move the way funding, settling and administration move them. */
  ghost predicate QuietAgreements(db: Ledger, after: Ledger) {
    && after.agreements.Keys == db.agreements.Keys
    && forall a | a in db.agreements :: QuietMove(db.agreements[a].status, after.agreements[a].status)
  }

  ghost predicate QuietMilestones(db: Ledger, after: Ledger) {
    && after.milestones.Keys == db.milestones.Keys
    && forall m | m in db.milestones ::
         var from, to := db.milestones[m].status, after.milestones[m].status;
         && after.milestones[m].agreement == db.milestones[m].agreement
         && (from == to || (from != M.ProofSubmitted && to in {M.Funded, M.Released, M.Refunded}))
  }

  ghost predicate SameVerdicts(db: Ledger, after: Ledger) {
    after.proofs == db.proofs && after.reviews == db.reviews && after.disputes == db.disputes
  }

  ghost predicate QuietMoves(db: Ledger, after: Ledger) {
    SameTerms(db, after) && SameVerdicts(db, after) && QuietAgreements(db, after) && QuietMilestones(db, after)
  }

  /** An agreement whose proofs, disputes and milestones were left alone keeps its review state. */
  lemma ReviewStateCarries(db: Ledger, after: Ledger, a: Id)
    requires a in db.agreements && a in after.agreements && ReviewState(db, a)
    requires QuietMove(db.agreements[a].status, after.agreements[a].status)
    requires Unreviewed(after, a) == Unreviewed(db, a) && OpenDisputes(after, a) == OpenDisputes(db, a)
    requires SubmittedMilestones(after, a) == SubmittedMilestones(db, a)
    requires forall p | p in Unreviewed(db, a) ::
               p in db.proofs && p in after.proofs && after.proofs[p].milestone == db.proofs[p].milestone
    ensures ReviewState(after, a)
  {
    hide Unreviewed, OpenDisputes, SubmittedMilestones;
    if after.agreements[a].status == A.ProofSubmitted {
      var p :| p in db.proofs && Unreviewed(db, a) == {p} && SubmittedMilestones(db, a) == {db.proofs[p].milestone};
      assert p in Unreviewed(db, a);
    }
  }

  lemma QuietMovesKeepReviewing(db: Ledger, after: Ledger)
    requires SameVerdicts(db, after) && QuietAgreements(db, after) && QuietMilestones(db, after)
    requires OneReviewAtATime(db)
    ensures OneReviewAtATime(after)
  {
    hide ReviewState;
    forall a | a in after.agreements ensures ReviewState(after, a) {
      assert SubmittedMilestones(after, a) == SubmittedMilestones(db, a);
      ReviewStateCarries(db, after, a);
    }
  }

  lemma QuietMovesKeepSilence(db: Ledger, after: Ledger)
    requires SameVerdicts(db, after) && QuietAgreements(db, after) && QuietMilestones(db, after)
    requires NoneUnderReview(db)
    ensures NoneUnderReview(after)
  {
  }

  lemma QuietMovesKeepSanctions(db: Ledger, after: Ledger)
    requires SameVerdicts(db, after) && QuietAgreements(db, after) && QuietMilestones(db, after)
    requires ApprovalsAreSanctioned(db)
    ensures ApprovalsAreSanctioned(after)
  {
    SameEvidence(db, after);
    hide Sanctioned;
  }

  lemma QuietMovesKeepTerms(db: Ledger, after: Ledger)
    requires Terms(db) && SameTerms(db, after) && SameVerdicts(db, after)
    requires forall op | op in after.transactions && op !in db.transactions :: KnownOperation(after, op)
    ensures Terms(after)
  {
    hide Allocations, OneEscrowPerScope, SplitsAreExact;
    SameTermsKeepAllocations(db, after);
    SameTermsKeepScopes(db, after);
    KeptEscrowsKeepSplits(db, after);
    SameTermsKeepReferences(db, after);
  }

  lemma SameTermsKeepReferences(db: Ledger, after: Ledger)
    requires References(db) && SameTerms(db, after) && SameVerdicts(db, after)
    requires forall op | op in after.transactions && op !in db.transactions :: KnownOperation(after, op)
    ensures References(after)
  {
    forall op | op in after.transactions ensures KnownOperation(after, op) {
      if op in db.transactions {
        KnownHere(db, op);
      }
    }
    hide KnownScope, KnownOperation;
    SameAmountsKeepReferences(db, after);
  }

  lemma QuietMovesKeepInv(db: Ledger, after: Ledger)
    requires Inv(db) && QuietMoves(db, after)
    requires forall op | op in after.transactions && op !in db.transactions :: KnownOperation(after, op)
    requires SettlementsBacked(after)
    ensures Inv(after)
  {
    hide Terms, ApprovalsAreSanctioned, SettlementsBacked;
    hide OneReviewAtATime, NoneUnderReview, QuietAgreements, QuietMilestones, SameTerms;
    QuietMovesKeepTerms(db, after);
    QuietMovesKeepReviewing(db, after);
    QuietMovesKeepSilence(db, after);
    QuietMovesKeepSanctions(db, after);
  }

  // ---------------------------------------------------------------- escrow requests

  lemma WriteMovesQuietly(db: Ledger, e: Id, status: E.Status, op: Operation, row: Transaction)
    requires e in db.escrows && (status == E.NotCreated ==> db.escrows[e].status == E.NotCreated)
    ensures QuietMoves(db, WithTransaction(WithEscrowStatus(db, e, status), op, row))
  {
  }

  /** Release rows stay sanctioned as long as none comes in and no sanction is lost. */
  lemma SameReleases(db: Ledger, after: Ledger)
    requires ReleasesAreSanctioned(db) && after.escrows.Keys == db.escrows.Keys
    requires forall e | e in db.escrows :: after.escrows[e].scope == db.escrows[e].scope
    requires forall scope | Sanctioned(db, scope) :: Sanctioned(after, scope)
    requires forall op | op in after.transactions && op.kind == ReleaseTx :: op in db.transactions
    ensures ReleasesAreSanctioned(after)
  {
    hide Sanctioned;
  }

  lemma SameEscrowsKeepBacking(db: Ledger, after: Ledger)
    requires SettlementsBacked(db)
    requires after.escrows == db.escrows && after.transactions == db.transactions
    requires forall scope | Sanctioned(db, scope) :: Sanctioned(after, scope)
    ensures SettlementsBacked(after)
  {
    hide Sanctioned;
    SameReleases(db, after);
    forall e, op | e in after.escrows ensures Reserved(after, e, op) {
      assert Reserved(db, e, op);
    }
  }

  lemma WriteStaysBacked(db: Ledger, e: Id, status: E.Status, op: Operation, row: Transaction)
    requires SettlementsBacked(db) && e in db.escrows && (status == E.NotCreated ==> db.escrows[e].status == E.NotCreated)
    requires status in {E.ReleasePending, E.Released} ==> Operation(e, ReleaseTx) in db.transactions
    requires status in {E.RefundPending, E.Refunded} ==> Operation(e, RefundTx) in db.transactions
    ensures SettlementsBacked(WithTransaction(WithEscrowStatus(db, e, status), op, row))
  {
    var after := WithTransaction(WithEscrowStatus(db, e, status), op, row);
    WriteMovesQuietly(db, e, status, op, row);
    WriteStaysReserved(db, e, status, op, row);
    hide ReleasesAreSanctioned, SettlementsAreReserved, QuietAgreements, QuietMilestones, Sanctioned;
    SameEvidence(db, after);
    SameReleases(db, after);
  }

  lemma WriteStaysReserved(db: Ledger, e: Id, status: E.Status, op: Operation, row: Transaction)
    requires SettlementsAreReserved(db) && e in db.escrows
    requires status in {E.ReleasePending, E.Released} ==> Operation(e, ReleaseTx) in db.transactions
    requires status in {E.RefundPending, E.Refunded} ==> Operation(e, RefundTx) in db.transactions
    ensures SettlementsAreReserved(WithTransaction(WithEscrowStatus(db, e, status), op, row))
  {
    var after := WithTransaction(WithEscrowStatus(db, e, status), op, row);
    assert after.transactions.Keys == db.transactions.Keys;
    assert after.escrows == db.escrows[e := db.escrows[e].(status := status)];
    hide WithTransaction, WithEscrowStatus;
    forall f, g | f in after.escrows ensures Reserved(after, f, g) {
      assert Reserved(db, f, g);
    }
  }

  /** Writing an escrow status and a transaction row that backs it. */
  lemma WriteKeeps(db: Ledger, e: Id, status: E.Status, op: Operation, row: Transaction)
    requires Inv(db) && e in db.escrows && (status == E.NotCreated ==> db.escrows[e].status == E.NotCreated)
    requires status in {E.ReleasePending, E.Released} ==> Operation(e, ReleaseTx) in db.transactions
    requires status in {E.RefundPending, E.Refunded} ==> Operation(e, RefundTx) in db.transactions
    ensures Inv(WithTransaction(WithEscrowStatus(db, e, status), op, row))
  {
    WriteMovesQuietly(db, e, status, op, row);
    WriteStaysBacked(db, e, status, op, row);
    hide Terms, SettlementsBacked, ApprovalsAreSanctioned, ReviewsAreExclusive, QuietMoves;
    QuietMovesKeepInv(db, WithTransaction(WithEscrowStatus(db, e, status), op, row));
  }

  /** Moves that leave escrows and transactions alone need no new backing. */
  lemma ScopeMovesKeep(db: Ledger, after: Ledger)
    requires Inv(db) && QuietMoves(db, after)
    requires after.escrows == db.escrows && after.transactions == db.transactions
    ensures Inv(after)
  {
    hide Terms, ApprovalsAreSanctioned, ReviewsAreExclusive, SettlementsBacked, SameTerms, Sanctioned;
    SameEvidence(db, after);
    SameEscrowsKeepBacking(db, after);
    QuietMovesKeepInv(db, after);
  }

  lemma AgreementMoveKeeps(db: Ledger, a: Id, to: A.Status)
    requires Inv(db) && a in db.agreements && QuietMove(db.agreements[a].status, to)
    ensures Inv(WithAgreementStatus(db, a, to))
  {
    hide Inv;
    ScopeMovesKeep(db, WithAgreementStatus(db, a, to));
  }

  lemma MilestoneMoveKeeps(db: Ledger, m: Id, to: M.Status)
    requires Inv(db) && m in db.milestones
    requires db.milestones[m].status != M.ProofSubmitted && to in {M.Funded, M.Released, M.Refunded}
    ensures Inv(WithMilestoneStatus(db, m, to))
  {
    hide Inv;
    ScopeMovesKeep(db, WithMilestoneStatus(db, m, to));
  }

  lemma FundScopeKeeps(db: Ledger, scope: Scope)
    requires Inv(db)
    ensures Inv(FundScope(db, scope))
  {
    hide Inv, WithAgreementStatus, WithMilestoneStatus;
    var a := scope.agreement;
    var moved := db;
    if a in db.agreements && db.agreements[a].status == A.FundingRequired {
      AgreementMoveKeeps(db, a, A.Funded);
      moved := WithAgreementStatus(db, a, A.Funded);
    }
    if scope.milestone.Some? && scope.milestone.value in moved.milestones
       && moved.milestones[scope.milestone.value].status in {M.Pending, M.FundingRequired} {
      MilestoneMoveKeeps(moved, scope.milestone.value, M.Funded);
    }
  }

  lemma SettleMilestoneKeeps(db: Ledger, scope: Scope, op: Settlement)
    requires Inv(db)
    ensures Inv(SettleMilestone(db, scope, op))
  {
    hide Inv, WithMilestoneStatus;
    var to := if op == ToWorker then M.Released else M.Refunded;
    if scope.milestone.Some? && scope.milestone.value in db.milestones
       && M.CanTransition(db.milestones[scope.milestone.value].status, to) {
      MilestoneMoveKeeps(db, scope.milestone.value, to);
    }
  }

  lemma RollUpIsQuiet(status: A.Status, op: Settlement)
    requires status != A.ReleasePending && RollUpTarget(status, op).Some?
    ensures QuietMove(status, RollUpTarget(status, op).value)
  {
  }

  lemma RollUpKeeps(db: Ledger, a: Id, op: Settlement)
    requires Inv(db)
    ensures Inv(RollUp(db, a, op))
  {
    assert NoneUnderReview(db) by {
      hide Terms, ApprovalsAreSanctioned, SettlementsBacked, OneReviewAtATime, OneVerdictPerProof, NoneUnderReview;
    }
    hide Inv, WithAgreementStatus, RollUpTarget, QuietMove, AllEscrowsAre;
    if a in db.agreements && RollUpTarget(db.agreements[a].status, op).Some? {
      RollUpIsQuiet(db.agreements[a].status, op);
      AgreementMoveKeeps(db, a, RollUpTarget(db.agreements[a].status, op).value);
    }
  }

  lemma SettleKeeps(db: Ledger, scope: Scope, op: Settlement)
    requires Inv(db)
    ensures Inv(Settle(db, scope, op))
  {
    hide Inv, SettleMilestone, RollUp;
    SettleMilestoneKeeps(db, scope, op);
    RollUpKeeps(SettleMilestone(db, scope, op), scope.agreement, op);
  }

  lemma FinalizeCreationKeeps(db: Ledger, e: Id, next: E.Status, hash: Option<Hash>)
    requires Inv(db) && FinalizeCreation(db, e, next, hash).Ok?
    ensures Inv(FinalizeCreation(db, e, next, hash).value)
  {
    hide Inv, WithTransaction, WithEscrowStatus;
    var status := if next == E.ReconciliationRequired then TxReconciliationRequired
                  else if db.escrows[e].rail != Ckb then Confirmed else Broadcast;
    WriteKeeps(db, e, next, Operation(e, LockTx), Transaction(status, hash));
  }

  lemma FinalizeFundingKeeps(db: Ledger, e: Id, next: E.Status, hash: Option<Hash>)
    requires Inv(db) && FinalizeFunding(db, e, next, hash).Ok?
    ensures Inv(FinalizeFunding(db, e, next, hash).value)
  {
    hide Inv, FundScope;
    var escrow, op := db.escrows[e], Operation(e, LockTx);
    if escrow.status != E.Funded {
      var moved := WithEscrowStatus(db, e, next);
      var status := if next == E.Funded then Confirmed else Committed;
      var row := if op !in db.transactions then Transaction(status, hash)
                 else Transaction(status, if escrow.status != next && hash.Some? then hash else db.transactions[op].hash);
      WriteKeeps(db, e, next, op, row);
      FundScopeKeeps(WithTransaction(moved, op, row), escrow.scope);
    }
  }

  lemma FinalizeFailureKeeps(db: Ledger, e: Id, op: Settlement)
    requires Inv(db) && FinalizeFailure(db, e, op).Ok?
    ensures Inv(FinalizeFailure(db, e, op).value)
  {
    hide Inv, WithTransaction, WithEscrowStatus;
    var key := Operation(e, KindOf(op));
    WriteKeeps(db, e, E.Failed, key,
      if key in db.transactions then db.transactions[key].(status := TxFailed) else Transaction(TxFailed, None));
  }

  lemma FinalizeSettlementKeeps(db: Ledger, e: Id, op: Settlement, answer: E.Status, hash: Option<Hash>)
    requires Inv(db) && FinalizeSettlement(db, e, op, answer, hash).Ok?
    ensures Inv(FinalizeSettlement(db, e, op, answer, hash).value)
  {
    assert Reserved(db, e, op);
    hide Inv, Settle, WithTransaction, WithEscrowStatus;
    var escrow := db.escrows[e];
    var immediate := escrow.rail != Ckb;
    var next := if answer == E.ReconciliationRequired then E.ReconciliationRequired
                else if immediate && answer == TerminalStatus(op) then TerminalStatus(op)
                else PendingStatus(op);
    var status := if next == E.ReconciliationRequired then TxReconciliationRequired
                  else if immediate then Confirmed else Broadcast;
    WriteKeeps(db, e, next, Operation(e, KindOf(op)), Transaction(status, hash));
    SettleKeeps(WithTransaction(WithEscrowStatus(db, e, next), Operation(e, KindOf(op)), Transaction(status, hash)),
                escrow.scope, op);
  }

  /** Only a settlement's own transaction, or none, brings an escrow to a settlement status. */
  lemma ObservedStatus(kind: Kind, view: R.View, seen: R.Observation)
    requires R.Observe(kind, view, seen).Applied?
    ensures var next := R.Observe(kind, view, seen).view.escrow;
            && (next == E.NotCreated ==> view.escrow == E.NotCreated)
            && (next in {E.ReleasePending, E.Released} ==> next == view.escrow || kind == ReleaseTx)
            && (next in {E.RefundPending, E.Refunded} ==> next == view.escrow || kind == RefundTx)
  {
  }

  /** The rows that back the status an observation leads to. */
  lemma ObservedIsReserved(db: Ledger, op: Operation, row: Transaction, seen: R.Observation)
    requires SettlementsAreReserved(db) && op in db.transactions && op.escrow in db.escrows
    requires R.Observe(op.kind, R.View(db.escrows[op.escrow].status, row.status), seen).Applied?
    ensures var next := R.Observe(op.kind, R.View(db.escrows[op.escrow].status, row.status), seen).view.escrow;
            && (next == E.NotCreated ==> db.escrows[op.escrow].status == E.NotCreated)
            && (next in {E.ReleasePending, E.Released} ==> Operation(op.escrow, ReleaseTx) in db.transactions)
            && (next in {E.RefundPending, E.Refunded} ==> Operation(op.escrow, RefundTx) in db.transactions)
  {
    ObservedStatus(op.kind, R.View(db.escrows[op.escrow].status, row.status), seen);
    hide R.Observe;
    assert Reserved(db, op.escrow, ToWorker) && Reserved(db, op.escrow, ToClient);
    assert op == Operation(op.escrow, op.kind);
  }

  lemma ReconcileKeeps(db: Ledger, op: Operation, hash: Hash, seen: R.Observation)
    requires Inv(db) && Reconcile(db, op, hash, seen).Ok?
    ensures Inv(Reconcile(db, op, hash, seen).value)
  {
    hide R.Observe, Settle, FundScope, WithTransaction, WithEscrowStatus;
    hide Terms, ReviewsAreExclusive, ApprovalsAreSanctioned, ReleasesAreSanctioned, SettlementsAreReserved;
    var escrow, row := db.escrows[op.escrow], db.transactions[op];
    ObservedIsReserved(db, op, row, seen);
    hide Inv;
    var outcome := R.Observe(op.kind, R.View(escrow.status, row.status), seen);
    var written := WithTransaction(WithEscrowStatus(db, op.escrow, outcome.view.escrow), op,
                                   row.(status := outcome.view.transaction));
    WriteKeeps(db, op.escrow, outcome.view.escrow, op, row.(status := outcome.view.transaction));
    FundScopeKeeps(written, escrow.scope);
    SettleKeeps(written, escrow.scope, ToWorker);
    SettleKeeps(written, escrow.scope, ToClient);
  }

  /** A release is reserved only in a sanctioned scope. */
  lemma ReleaseNeedsSanction(db: Ledger, escrow: Escrow)
    requires ApprovalsAreSanctioned(db) && KnownScope(db, escrow.scope)
    requires ReleaseError(db, escrow).None?
    ensures Sanctioned(db, escrow.scope)
  {
    var scope := escrow.scope;
    hide AcceptedProofIn, ReleaseDisputeIn;
    if scope.milestone.Some? {
      assert scope == Scope(scope.agreement, Some(scope.milestone.value));
    } else {
      assert scope == Scope(scope.agreement, None);
    }
  }

  lemma ReserveSettlementKeeps(db: Ledger, e: Id, op: Settlement)
    requires Inv(db) && ReserveSettlement(db, e, op).Ok?
    ensures Inv(ReserveSettlement(db, e, op).value)
  {
    var after := ReserveSettlement(db, e, op).value;
    ReservationIsSanctioned(db, e, op);
    ReservationMoves(db, e, op);
    hide *;
    ReservationIsBacked(db, e, op);
    QuietMovesKeepInv(db, after);
  }

  lemma ReservationIsSanctioned(db: Ledger, e: Id, op: Settlement)
    requires Inv(db) && ReserveSettlement(db, e, op).Ok?
    ensures SettlementsBacked(db) && e in db.escrows && (op == ToWorker ==> Sanctioned(db, db.escrows[e].scope))
  {
    hide OneEscrowPerScope, SplitsAreExact, Allocations, ReviewsAreExclusive, SettlementsBacked;
    assert KnownScope(db, db.escrows[e].scope);
    if op == ToWorker {
      ReleaseNeedsSanction(db, db.escrows[e]);
    }
  }

  lemma ReservationMoves(db: Ledger, e: Id, op: Settlement)
    requires Inv(db) && ReserveSettlement(db, e, op).Ok?
    ensures var after := ReserveSettlement(db, e, op).value;
            && QuietMoves(db, after)
            && forall x | x in after.transactions && x !in db.transactions :: KnownOperation(after, x)
  {
    hide SettlementError, Inv;
    WriteMovesQuietly(db, e, PendingStatus(op), Operation(e, KindOf(op)), Transaction(TxPending, None));
  }

  lemma ReservationIsBacked(db: Ledger, e: Id, op: Settlement)
    requires SettlementsBacked(db) && ReserveSettlement(db, e, op).Ok?
    requires op == ToWorker ==> Sanctioned(db, db.escrows[e].scope)
    ensures SettlementsBacked(ReserveSettlement(db, e, op).value)
  {
    var after := ReserveSettlement(db, e, op).value;
    hide SettlementError;
    forall f, g | f in after.escrows ensures Reserved(after, f, g) {
      assert Reserved(db, f, g);
    }
    SameEvidence(db, after);
    hide Sanctioned;
  }

  // ---------------------------------------------------------------- escrow rows come and go

  ghost predicate SameWork(db: Ledger, after: Ledger) {
    after.agreements == db.agreements && after.milestones == db.milestones && SameVerdicts(db, after)
  }

  /** Reviews and approvals do not look at escrows. */
  lemma SameWorkKeeps(db: Ledger, after: Ledger)
    requires SameWork(db, after) && ReviewsAreExclusive(db) && ApprovalsAreSanctioned(db)
    ensures ReviewsAreExclusive(after) && ApprovalsAreSanctioned(after)
  {
    hide ApprovalsAreSanctioned, OneReviewAtATime, NoneUnderReview;
    QuietMovesKeepReviewing(db, after);
    QuietMovesKeepSilence(db, after);
    QuietMovesKeepSanctions(db, after);
  }

  /** The two lookups of a scope together find every escrow of the scope. */
  lemma LookupsCoverScope(db: Ledger, scope: Scope, f: Id)
    requires f in db.escrows && db.escrows[f].scope == scope
    ensures f in TerminalEscrows(db, scope) || f in EscrowsIn(db, scope, E.ACTIVE)
  {
    match db.escrows[f].status {
      case Released => assert db.escrows[f].status in E.TERMINAL;
      case Refunded => assert db.escrows[f].status in E.TERMINAL;
      case _ => assert db.escrows[f].status in E.ACTIVE;
    }
  }

  lemma ReserveCreationKeeps(db: Ledger, e: Id, scope: Scope, amount: int, currency: string, rail: Rail)
    requires Inv(db) && ReserveCreation(db, e, scope, amount, currency, rail).Ok?
    ensures Inv(ReserveCreation(db, e, scope, amount, currency, rail).value)
  {
    var escrow := Escrow(scope, amount, currency, rail, E.NotCreated);
    var after := ReserveCreation(db, e, scope, amount, currency, rail).value;
    assert Fits(db, escrow) by {
      hide Inv, TerminalEscrows, EscrowsIn;
    }
    assert forall f | f in db.escrows :: db.escrows[f].scope != scope by {
      hide Inv, ScopeError, AmountError;
      forall f | f in db.escrows ensures db.escrows[f].scope != scope {
        if db.escrows[f].scope == scope {
          LookupsCoverScope(db, scope, f);
        }
      }
    }
    hide ReserveCreation, ReviewsAreExclusive, ApprovalsAreSanctioned;
    NewEscrowKeeps(db, after, e, escrow);
  }

  lemma NewEscrowTerms(db: Ledger, after: Ledger, e: Id, escrow: Escrow)
    requires Terms(db) && e !in db.escrows && Fits(db, escrow)
    requires after == db.(escrows := db.escrows[e := escrow],
                          transactions := db.transactions[Operation(e, LockTx) := Transaction(TxPending, None)])
    requires forall f | f in db.escrows :: db.escrows[f].scope != escrow.scope
    ensures Terms(after)
  {
    NewEscrowReferences(db, after, e, escrow);
    hide References;
    KeptEscrowsKeepSplits(db, after);
    hide SplitsAreExact;
    SameAmountsKeepAllocations(db, after);
  }

  lemma NewEscrowReferences(db: Ledger, after: Ledger, e: Id, escrow: Escrow)
    requires References(db) && e !in db.escrows && KnownScope(db, escrow.scope)
    requires after == db.(escrows := db.escrows[e := escrow],
                          transactions := db.transactions[Operation(e, LockTx) := Transaction(TxPending, None)])
    ensures References(after)
  {
    forall op | op in after.transactions ensures KnownOperation(after, op) {
      if op in db.transactions {
        KnownHere(db, op);
      }
    }
    hide KnownScope, KnownOperation;
    SameAmountsKeepReferences(db, after);
  }

  lemma NewEscrowBacked(db: Ledger, after: Ledger, e: Id, escrow: Escrow)
    requires References(db) && SettlementsBacked(db) && e !in db.escrows && SameVerdicts(db, after)
    requires after.escrows == db.escrows[e := escrow] && escrow.status == E.NotCreated
    requires after.transactions == db.transactions[Operation(e, LockTx) := Transaction(TxPending, None)]
    ensures SettlementsBacked(after)
  {
    SameEvidence(db, after);
    hide Sanctioned;
    forall f, g | f in after.escrows ensures Reserved(after, f, g) {
      assert f in db.escrows ==> Reserved(db, f, g);
    }
  }

  lemma NewEscrowKeeps(db: Ledger, after: Ledger, e: Id, escrow: Escrow)
    requires Inv(db) && e !in db.escrows
    requires after == db.(escrows := db.escrows[e := escrow],
                          transactions := db.transactions[Operation(e, LockTx) := Transaction(TxPending, None)])
    requires Fits(db, escrow) && escrow.status == E.NotCreated
    requires forall f | f in db.escrows :: db.escrows[f].scope != escrow.scope
    ensures Inv(after)
  {
    assert References(db);
    hide Terms, SettlementsBacked, ReviewsAreExclusive, ApprovalsAreSanctioned;
    NewEscrowTerms(db, after, e, escrow);
    NewEscrowBacked(db, after, e, escrow);
    SameWorkKeeps(db, after);
  }

  /** Escrows that were never created may go, with their lock transactions. */
  ghost predicate Discarded(db: Ledger, after: Ledger) {
    && SameWork(db, after)
    && (forall f | f in after.escrows :: f in db.escrows && after.escrows[f] == db.escrows[f])
    && (forall f | f in db.escrows && db.escrows[f].status != E.NotCreated :: f in after.escrows)
    && (forall op | op in after.transactions :: op in db.transactions && KnownOperation(after, op))
    && (forall op | op in db.transactions && op.kind != LockTx :: op in after.transactions)
  }

  lemma DiscardIsDiscarded(db: Ledger, e: Id)
    requires References(db)
    ensures Discarded(db, DiscardCreation(db, e))
  {
    DiscardedOperations(db, e);
    hide References, KnownOperation;
  }

  lemma DiscardedOperations(db: Ledger, e: Id)
    requires References(db)
    ensures var after := DiscardCreation(db, e);
            forall op | op in after.transactions :: op in db.transactions && KnownOperation(after, op)
  {
    var after := DiscardCreation(db, e);
    hide References;
    forall op | op in after.transactions ensures op in db.transactions && KnownOperation(after, op) {
      KnownHere(db, op);
      assert op != Operation(e, LockTx) && op == Operation(op.escrow, op.kind);
      if op.escrow != e {
        DiscardLeaves(db, e, op.escrow);
      }
    }
  }

  lemma DiscardLeaves(db: Ledger, e: Id, x: Id)
    requires x != e && x in db.escrows
    ensures x in DiscardCreation(db, e).escrows && DiscardCreation(db, e).escrows[x] == db.escrows[x]
  {
  }

  lemma DiscardedKeepsTerms(db: Ledger, after: Ledger)
    requires Terms(db) && Discarded(db, after)
    ensures Terms(after)
  {
    hide SplitsAreExact, KnownOperation;
    KeptEscrowsKeepSplits(db, after);
    SameAmountsKeepReferences(db, after);
    hide References;
    SameAmountsKeepAllocations(db, after);
  }

  lemma DiscardedKeepsBacking(db: Ledger, after: Ledger)
    requires SettlementsBacked(db) && Discarded(db, after)
    ensures SettlementsBacked(after)
  {
    assert forall scope | Sanctioned(db, scope) :: Sanctioned(after, scope) by {
      SameEvidence(db, after);
    }
    hide Sanctioned;
    forall f, g | f in after.escrows ensures Reserved(after, f, g) {
      assert Reserved(db, f, g);
    }
    forall op | op in after.transactions && op.kind == ReleaseTx
      ensures op.escrow in after.escrows && Sanctioned(after, after.escrows[op.escrow].scope)
    {
      assert KnownOperation(after, op);
    }
  }

  lemma DiscardCreationKeeps(db: Ledger, e: Id)
    requires Inv(db)
    ensures Inv(DiscardCreation(db, e))
  {
    var after := DiscardCreation(db, e);
    assert Discarded(db, after) by {
      hide Allocations, OneEscrowPerScope, SplitsAreExact, ReviewsAreExclusive, ApprovalsAreSanctioned, SettlementsBacked;
      DiscardIsDiscarded(db, e);
    }
    hide Terms, SettlementsBacked, ReviewsAreExclusive, ApprovalsAreSanctioned, DiscardCreation, SameWork;
    DiscardedKeepsTerms(db, after);
    DiscardedKeepsBacking(db, after);
    SameWorkKeeps(db, after);
  }

  // ---------------------------------------------------------------- agreements and milestones come in

  lemma CreateAgreementKeeps(db: Ledger, a: Id, amount: int, currency: string)
    requires Inv(db) && CreateAgreement(db, a, amount, currency).Ok?
    ensures Inv(CreateAgreement(db, a, amount, currency).value)
  {
    var after := CreateAgreement(db, a, amount, currency).value;
    assert References(db);
    hide ReviewsAreExclusive, SettlementsBacked, ApprovalsAreSanctioned;
    NewAgreementTerms(db, after, a);
    hide Terms;
    SameEvidence(db, after);
    hide Sanctioned, References;
    SameEscrowsKeepBacking(db, after);
    NewAgreementReviews(db, after, a);
  }

  /** Terms, when agreements or milestones came in and the rest was left alone. */
  lemma GrownTerms(db: Ledger, after: Ledger)
    requires Terms(db) && KeepsTerms(db, after)
    requires SameVerdicts(db, after) && after.escrows == db.escrows && after.transactions == db.transactions
    requires forall m | m in after.milestones :: after.milestones[m].agreement in after.agreements
    requires forall a | a in after.agreements :: Allocated(after, a) <= after.agreements[a].amount
    ensures Terms(after)
  {
    FitsStill(db, after);
    hide KeepsTerms, Allocated, Fits, KnownScope, SharesOut;
    assert References(after) by {
      hide Allocations, OneEscrowPerScope, SplitsAreExact;
      forall op | op in after.transactions ensures KnownOperation(after, op) {
        assert KnownOperation(db, op);
      }
      hide KnownOperation;
      ReferencesHold(db, after);
    }
    hide References;
    assert SplitsAreExact(after) by {
      hide Allocations, OneEscrowPerScope, SplitsAreExact;
      KeptEscrowsKeepSplits(db, after);
    }
  }

  lemma NewAgreementTerms(db: Ledger, after: Ledger, a: Id)
    requires Terms(db) && a !in db.agreements && a in after.agreements
    requires after == db.(agreements := db.agreements[a := after.agreements[a]])
    ensures Terms(after)
  {
    NewAgreementAllocated(db, after, a);
    MilestonesAreKnown(db);
    hide Terms, Allocated;
    GrownTerms(db, after);
  }

  lemma NewAgreementAllocated(db: Ledger, after: Ledger, a: Id)
    requires References(db) && Allocations(db) && a !in db.agreements && a in after.agreements
    requires after.milestones == db.milestones && after.agreements == db.agreements[a := after.agreements[a]]
    ensures forall b | b in after.agreements :: Allocated(after, b) <= after.agreements[b].amount
  {
    assert MilestoneAmounts(after, a) == map[];
    assert Allocated(after, a) == 0;
    hide References, Fits, Total;
    forall b | b in db.agreements ensures MilestoneAmounts(after, b) == MilestoneAmounts(db, b) {
    }
  }

  lemma NewAgreementReviews(db: Ledger, after: Ledger, a: Id)
    requires References(db) && ReviewsAreExclusive(db) && ApprovalsAreSanctioned(db)
    requires a !in db.agreements && a in after.agreements && after.agreements[a].status == A.Draft
    requires after == db.(agreements := db.agreements[a := after.agreements[a]])
    ensures ReviewsAreExclusive(after) && ApprovalsAreSanctioned(after)
  {
    assert OneReviewAtATime(after) by {
      hide NoneUnderReview, OneVerdictPerProof, ApprovalsAreSanctioned, ReviewState;
      forall b | b in after.agreements ensures ReviewState(after, b) {
        if b != a {
          ReviewStateCarries(db, after, b);
        } else {
          NewAgreementIsQuiet(db, after, a);
        }
      }
    }
    hide OneReviewAtATime, References;
    NewAgreementApprovals(db, after, a);
    hide ApprovalsAreSanctioned;
  }

  lemma NewAgreementApprovals(db: Ledger, after: Ledger, a: Id)
    requires ApprovalsAreSanctioned(db) && a !in db.agreements && a in after.agreements
    requires after.agreements[a].status == A.Draft && after == db.(agreements := db.agreements[a := after.agreements[a]])
    ensures ApprovalsAreSanctioned(after)
  {
    SameEvidence(db, after);
    hide Sanctioned;
  }

  /** No row points at an agreement that is only now created. */
  lemma NewAgreementIsQuiet(db: Ledger, after: Ledger, a: Id)
    requires References(db) && a !in db.agreements && a in after.agreements
    requires after == db.(agreements := db.agreements[a := after.agreements[a]])
    requires after.agreements[a].status == A.Draft
    ensures ReviewState(after, a)
  {
    assert Unreviewed(after, a) == {} && OpenDisputes(after, a) == {} && SubmittedMilestones(after, a) == {};
  }

  lemma CreateMilestoneKeeps(db: Ledger, a: Id, m: Id, amount: int, currency: string, order: Option<int>,
                             reference: Option<string>)
    requires Inv(db) && CreateMilestone(db, a, m, amount, currency, order, reference).Ok?
    ensures Inv(CreateMilestone(db, a, m, amount, currency, order, reference).value)
  {
    hide Taken, OrderFor;
    var after := CreateMilestone(db, a, m, amount, currency, order, reference).value;
    assert References(db);
    hide ReviewsAreExclusive, SettlementsBacked, ApprovalsAreSanctioned;
    assert Terms(after) by {
      NewMilestoneTerms(db, after, m, after.milestones[m]);
    }
    hide Terms, References;
    SameEvidence(db, after);
    hide Sanctioned;
    SameEscrowsKeepBacking(db, after);
    NewMilestoneReviews(db, after, m, after.milestones[m]);
  }

  lemma NewMilestoneTerms(db: Ledger, after: Ledger, m: Id, row: Milestone)
    requires Terms(db) && row.agreement in db.agreements && m !in db.milestones
    requires Allocated(db, row.agreement) + row.amount <= db.agreements[row.agreement].amount
    requires after == db.(milestones := db.milestones[m := row])
    ensures Terms(after)
  {
    NewMilestoneAllocated(db, after, m, row);
    MilestonesAreKnown(db);
    hide *;
    GrewByMilestone(db, after, m, row);
    GrownTerms(db, after);
  }

  lemma MilestonesAreKnown(db: Ledger)
    requires Terms(db)
    ensures forall m | m in db.milestones :: db.milestones[m].agreement in db.agreements
  {
    hide Allocations, OneEscrowPerScope, SplitsAreExact, KnownScope, KnownOperation;
  }

  lemma GrewByMilestone(db: Ledger, after: Ledger, m: Id, row: Milestone)
    requires m !in db.milestones && after == db.(milestones := db.milestones[m := row])
    ensures KeepsTerms(db, after) && SameVerdicts(db, after)
  {
  }

  lemma NewMilestoneAllocated(db: Ledger, after: Ledger, m: Id, row: Milestone)
    requires Allocations(db) && row.agreement in db.agreements && m !in db.milestones
    requires Allocated(db, row.agreement) + row.amount <= db.agreements[row.agreement].amount
    requires after == db.(milestones := db.milestones[m := row])
    ensures forall b | b in after.agreements :: Allocated(after, b) <= after.agreements[b].amount
  {
    hide Fits, Total;
    var a := row.agreement;
    assert MilestoneAmounts(after, a) == MilestoneAmounts(db, a)[m := row.amount];
    TotalInsert(MilestoneAmounts(db, a), m, row.amount);
    forall b | b in db.agreements && b != a ensures MilestoneAmounts(after, b) == MilestoneAmounts(db, b) {
    }
  }

  lemma NewMilestoneReviews(db: Ledger, after: Ledger, m: Id, row: Milestone)
    requires ReviewsAreExclusive(db) && ApprovalsAreSanctioned(db) && m !in db.milestones
    requires row.status == M.Pending && after == db.(milestones := db.milestones[m := row])
    ensures ReviewsAreExclusive(after) && ApprovalsAreSanctioned(after)
  {
    assert OneReviewAtATime(after) by {
      hide NoneUnderReview, OneVerdictPerProof, ApprovalsAreSanctioned, ReviewState;
      forall b | b in after.agreements ensures ReviewState(after, b) {
        assert SubmittedMilestones(after, b) == SubmittedMilestones(db, b);
        ReviewStateCarries(db, after, b);
      }
    }
    hide OneReviewAtATime;
    assert ApprovalsAreSanctioned(after) by {
      hide NoneUnderReview, OneVerdictPerProof;
      SameEvidence(db, after);
      hide Sanctioned;
    }
  }

  // ---------------------------------------------------------------- proofs, reviews and disputes

  /** One agreement and one of its milestones move; escrows and transactions stay. */
  ghost predicate WorksOn(db: Ledger, after: Ledger, a: Id, m: Id) {
    && SameAmounts(db, after) && a in db.agreements && MilestoneOf(db, m, a)
    && (forall b | b in db.agreements && b != a :: after.agreements[b].status == db.agreements[b].status)
    && (forall n | n in db.milestones && n != m :: after.milestones[n].status == db.milestones[n].status)
    && after.escrows == db.escrows && after.transactions == db.transactions
  }

  lemma WorkKeepsTerms(db: Ledger, after: Ledger, a: Id, m: Id)
    requires Terms(db) && WorksOn(db, after, a, m) && SplitsAreExact(after)
    requires forall p | p in after.proofs :: KnownScope(db, Scope(after.proofs[p].agreement, Some(after.proofs[p].milestone)))
    requires forall d | d in after.disputes :: KnownScope(db, Scope(after.disputes[d].agreement, Some(after.disputes[d].milestone)))
    ensures Terms(after)
  {
    hide SplitsAreExact;
    assert References(after) by {
      hide Allocations, OneEscrowPerScope;
      forall op | op in after.transactions ensures KnownOperation(after, op) {
        assert KnownOperation(db, op);
      }
      hide KnownOperation;
      SameAmountsKeepReferences(db, after);
    }
    hide References, KnownScope, SameAmounts;
    assert Allocations(after) by {
      SameAmountsKeepAllocations(db, after);
    }
  }

  lemma WorkKeepsApprovals(db: Ledger, after: Ledger, a: Id, m: Id)
    requires ApprovalsAreSanctioned(db) && WorksOn(db, after, a, m)
    requires forall scope | Sanctioned(db, scope) :: Sanctioned(after, scope)
    requires after.agreements[a].status == A.Approved ==> Sanctioned(after, Scope(a, None))
    requires after.milestones[m].status == M.Approved ==> Sanctioned(after, Scope(a, Some(m)))
    ensures ApprovalsAreSanctioned(after)
  {
    hide Sanctioned;
  }

  lemma WorkKeepsReviewing(db: Ledger, after: Ledger, a: Id, m: Id)
    requires OneReviewAtATime(db) && WorksOn(db, after, a, m)
    requires forall p | p in db.proofs :: p in after.proofs
               && after.proofs[p].milestone == db.proofs[p].milestone && after.proofs[p].agreement == db.proofs[p].agreement
    requires forall b | b != a :: Unreviewed(after, b) == Unreviewed(db, b) && OpenDisputes(after, b) == OpenDisputes(db, b)
    requires ReviewState(after, a)
    ensures OneReviewAtATime(after)
  {
    hide ReviewState;
    forall b | b in after.agreements && b != a ensures ReviewState(after, b) {
      assert SubmittedMilestones(after, b) == SubmittedMilestones(db, b);
      ReviewStateCarries(db, after, b);
    }
  }

  lemma WorkKeepsSilence(db: Ledger, after: Ledger, a: Id, m: Id)
    requires NoneUnderReview(db) && WorksOn(db, after, a, m)
    requires after.agreements[a].status !in {A.UnderReview, A.ReleasePending}
    requires after.milestones[m].status != M.UnderReview
    requires forall p | p in after.proofs && (p !in db.proofs || after.proofs[p] != db.proofs[p]) ::
               after.proofs[p].status in {Submitted, Accepted, ProofStatus.Rejected, NeedsChanges}
    ensures NoneUnderReview(after)
  {
  }

  lemma JudgedProofLeaves(db: Ledger, after: Ledger, p: Id, proof: Proof)
    requires p in db.proofs && proof.agreement == db.proofs[p].agreement && !Awaiting(proof)
    requires after.proofs == db.proofs[p := proof]
    ensures forall b | b != proof.agreement :: Unreviewed(after, b) == Unreviewed(db, b)
    ensures Unreviewed(after, proof.agreement) == Unreviewed(db, proof.agreement) - {p}
  {
  }

  lemma MovedMilestoneLeaves(db: Ledger, after: Ledger, a: Id, m: Id)
    requires WorksOn(db, after, a, m) && m in after.milestones && after.milestones[m].status != M.ProofSubmitted
    ensures SubmittedMilestones(after, a) == SubmittedMilestones(db, a) - {m}
  {
  }

  lemma DisputeChanges(db: Ledger, after: Ledger, d: Id, dispute: Dispute)
    requires d in db.disputes ==> db.disputes[d].agreement == dispute.agreement
    requires after.disputes == db.disputes[d := dispute]
    ensures forall b | b != dispute.agreement :: OpenDisputes(after, b) == OpenDisputes(db, b)
    ensures OpenDisputes(after, dispute.agreement) ==
            if dispute.status == Open then OpenDisputes(db, dispute.agreement) + {d}
            else OpenDisputes(db, dispute.agreement) - {d}
  {
  }

  lemma SameProofsWait(db: Ledger, after: Ledger)
    requires after.proofs == db.proofs
    ensures forall b :: Unreviewed(after, b) == Unreviewed(db, b)
  {
  }

  ghost predicate SanctionsKept(db: Ledger, after: Ledger) {
    forall scope | Sanctioned(db, scope) :: Sanctioned(after, scope)
  }

  ghost predicate NewlyApprovedIsSanctioned(db: Ledger, a: Id, m: Id) {
    && a in db.agreements && m in db.milestones
    && (db.agreements[a].status == A.Approved ==> Sanctioned(db, Scope(a, None)))
    && (db.milestones[m].status == M.Approved ==> Sanctioned(db, Scope(a, Some(m))))
  }

  /** The pieces of one request on one agreement, put together. */
  lemma WorkKeepsInv(db: Ledger, after: Ledger, a: Id, m: Id)
    requires Inv(db) && WorksOn(db, after, a, m)
    requires Terms(after) && ReviewsAreExclusive(after)
    requires SanctionsKept(db, after) && NewlyApprovedIsSanctioned(after, a, m)
    ensures Inv(after)
  {
    hide Terms, Sanctioned, ReviewsAreExclusive, SameAmounts;
    assert ApprovalsAreSanctioned(after) by {
      hide SettlementsBacked, ApprovalsAreSanctioned;
      WorkKeepsApprovals(db, after, a, m);
    }
    hide ApprovalsAreSanctioned, SettlementsBacked;
    SameEscrowsKeepBacking(db, after);
  }

  // Submitting a proof.

  lemma SubmitProofKeeps(db: Ledger, a: Id, m: Id, p: Id)
    requires Inv(db) && SubmitProof(db, a, m, p).Ok?
    ensures Inv(SubmitProof(db, a, m, p).value)
  {
    hide *;
    var after := SubmitProof(db, a, m, p).value;
    InvParts(db);
    SubmissionWorks(db, after, a, m, p);
    WorkLeavesEscrows(db, after, a, m);
    SubmissionTerms(db, after, a, m, p);
    SubmissionReviews(db, after, a, m, p);
    EvidenceKept(db, after);
    NothingApproved(after, a, m);
    WorkKeepsInv(db, after, a, m);
  }

  lemma InvParts(db: Ledger)
    requires Inv(db)
    ensures Terms(db) && References(db) && ReviewsAreExclusive(db)
    ensures OneReviewAtATime(db) && NoneUnderReview(db) && OneVerdictPerProof(db)
    ensures ApprovalsAreSanctioned(db) && SettlementsBacked(db)
  {
  }

  lemma EvidenceKept(db: Ledger, after: Ledger)
    requires forall p | p in db.proofs && db.proofs[p].status == Accepted :: p in after.proofs && after.proofs[p] == db.proofs[p]
    requires forall d | d in db.disputes && db.disputes[d].status.Resolved? :: d in after.disputes && after.disputes[d] == db.disputes[d]
    ensures SanctionsKept(db, after)
  {
    SameEvidence(db, after);
  }

  lemma NothingApproved(db: Ledger, a: Id, m: Id)
    requires a in db.agreements && m in db.milestones
    requires db.agreements[a].status != A.Approved && db.milestones[m].status != M.Approved
    ensures NewlyApprovedIsSanctioned(db, a, m)
  {
  }

  lemma SubmissionReviews(db: Ledger, after: Ledger, a: Id, m: Id, p: Id)
    requires ReviewsAreExclusive(db) && WorksOn(db, after, a, m) && db.agreements[a].status in SUBMITTABLE
    requires after.agreements[a].status == A.ProofSubmitted && after.milestones[m].status == M.ProofSubmitted
    requires p !in db.proofs && after.proofs == db.proofs[p := Proof(a, m, Submitted)]
    requires after.disputes == db.disputes && after.reviews == db.reviews
    ensures ReviewsAreExclusive(after)
  {
    assert OneVerdictPerProof(after) by {
      hide WorksOn, OneReviewAtATime, NoneUnderReview, OneVerdictPerProof;
      SubmissionVerdicts(db, after, p, Proof(a, m, Submitted));
    }
    assert NoneUnderReview(after) by {
      hide WorksOn, OneReviewAtATime, NoneUnderReview, OneVerdictPerProof;
      WorkKeepsSilence(db, after, a, m);
    }
    hide OneReviewAtATime, NoneUnderReview, OneVerdictPerProof, ReviewState, WorksOn, SubmittedMilestones, Unreviewed;
    SubmissionState(db, after, a, m, p);
    WorkKeepsReviewing(db, after, a, m);
  }

  lemma WorkLeavesEscrows(db: Ledger, after: Ledger, a: Id, m: Id)
    requires WorksOn(db, after, a, m)
    ensures after.escrows == db.escrows && after.transactions == db.transactions
    ensures a in db.agreements && a in after.agreements && m in db.milestones && m in after.milestones
    ensures KnownScope(db, Scope(a, Some(m)))
  {
  }

  lemma SubmissionWorks(db: Ledger, after: Ledger, a: Id, m: Id, p: Id)
    requires SubmitProof(db, a, m, p) == Ok(after)
    ensures WorksOn(db, after, a, m)
    ensures db.agreements[a].status in SUBMITTABLE
    ensures after.agreements[a].status == A.ProofSubmitted && after.milestones[m].status == M.ProofSubmitted
    ensures p !in db.proofs && after.proofs == db.proofs[p := Proof(a, m, Submitted)]
    ensures after.disputes == db.disputes && after.reviews == db.reviews
  {
  }

  lemma SubmissionTerms(db: Ledger, after: Ledger, a: Id, m: Id, p: Id)
    requires Terms(db) && WorksOn(db, after, a, m)
    requires p !in db.proofs && after.proofs == db.proofs[p := Proof(a, m, Submitted)] && after.disputes == db.disputes
    ensures Terms(after)
  {
    hide Allocations, OneEscrowPerScope, KnownOperation, SplitsAreExact;
    KeptEscrowsKeepSplits(db, after);
    assert KnownScope(db, Scope(a, Some(m)));
    WorkKeepsTerms(db, after, a, m);
  }

  lemma SubmissionState(db: Ledger, after: Ledger, a: Id, m: Id, p: Id)
    requires OneReviewAtATime(db) && WorksOn(db, after, a, m) && db.agreements[a].status in SUBMITTABLE
    requires after.agreements[a].status == A.ProofSubmitted && after.milestones[m].status == M.ProofSubmitted
    requires p !in db.proofs && after.proofs == db.proofs[p := Proof(a, m, Submitted)] && after.disputes == db.disputes
    ensures ReviewState(after, a)
    ensures forall b | b != a :: Unreviewed(after, b) == Unreviewed(db, b)
  {
    assert Unreviewed(db, a) == {} && SubmittedMilestones(db, a) == {} && OpenDisputes(db, a) == {} by {
      assert ReviewState(db, a);
    }
    hide ReviewState;
    assert Unreviewed(after, a) == Unreviewed(db, a) + {p};
    assert SubmittedMilestones(after, a) == SubmittedMilestones(db, a) + {m};
    WaitingState(after, a, m, p);
  }

  /** An agreement that waits for one proof on one milestone. */
  lemma WaitingState(db: Ledger, a: Id, m: Id, p: Id)
    requires a in db.agreements && db.agreements[a].status == A.ProofSubmitted
    requires p in db.proofs && db.proofs[p].milestone == m
    requires Unreviewed(db, a) == {p} && SubmittedMilestones(db, a) == {m} && OpenDisputes(db, a) == {}
    ensures ReviewState(db, a)
  {
    hide Unreviewed, SubmittedMilestones, OpenDisputes;
  }

  lemma SubmissionVerdicts(db: Ledger, after: Ledger, p: Id, proof: Proof)
    requires OneVerdictPerProof(db) && p !in db.proofs && proof.status == Submitted
    requires after.proofs == db.proofs[p := proof] && after.reviews == db.reviews
    ensures OneVerdictPerProof(after)
  {
  }

  // Reviewing a proof.

  lemma ReviewProofKeeps(db: Ledger, p: Id, r: Id, decision: Decision)
    requires Inv(db) && ReviewProof(db, p, r, decision).Ok?
    ensures Inv(ReviewProof(db, p, r, decision).value)
  {
    hide *;
    var after := ReviewProof(db, p, r, decision).value;
    InvParts(db);
    ReviewWorks(db, after, p, r, decision);
    var a, m := db.proofs[p].agreement, db.proofs[p].milestone;
    WorkLeavesEscrows(db, after, a, m);
    ReviewTerms(db, after, p, decision);
    ReviewedReviews(db, after, p, r, decision);
    EvidenceKept(db, after);
    ReviewSanctions(db, after, p, decision);
    WorkKeepsInv(db, after, a, m);
  }

  /** What a review writes. */
  ghost predicate Reviewed(db: Ledger, after: Ledger, p: Id, r: Id, decision: Decision) {
    && p in db.proofs && db.proofs[p].status in {Submitted, ProofStatus.UnderReview}
    && WorksOn(db, after, db.proofs[p].agreement, db.proofs[p].milestone)
    && db.agreements[db.proofs[p].agreement].status in {A.ProofSubmitted, A.UnderReview}
    && after.agreements[db.proofs[p].agreement].status == AgreementVerdict(decision)
    && after.milestones[db.proofs[p].milestone].status == MilestoneVerdict(decision)
    && after.proofs == db.proofs[p := db.proofs[p].(status := ProofStatusFor(decision))]
    && r !in db.reviews && after.reviews == db.reviews[r := Review(p, decision)]
    && after.disputes == db.disputes
  }

  lemma ReviewWorks(db: Ledger, after: Ledger, p: Id, r: Id, decision: Decision)
    requires ReviewProof(db, p, r, decision) == Ok(after)
    ensures Reviewed(db, after, p, r, decision)
    ensures p in db.proofs && WorksOn(db, after, db.proofs[p].agreement, db.proofs[p].milestone)
    ensures db.proofs[p].status in {Submitted, ProofStatus.UnderReview}
    ensures after.proofs == db.proofs[p := db.proofs[p].(status := ProofStatusFor(decision))]
    ensures after.disputes == db.disputes
  {
  }

  lemma ReviewTerms(db: Ledger, after: Ledger, p: Id, decision: Decision)
    requires Terms(db) && p in db.proofs && WorksOn(db, after, db.proofs[p].agreement, db.proofs[p].milestone)
    requires after.proofs == db.proofs[p := db.proofs[p].(status := ProofStatusFor(decision))]
    requires after.disputes == db.disputes
    ensures Terms(after)
  {
    hide Allocations, OneEscrowPerScope, KnownOperation, SplitsAreExact;
    KeptEscrowsKeepSplits(db, after);
    WorkKeepsTerms(db, after, db.proofs[p].agreement, db.proofs[p].milestone);
  }

  lemma ReviewSanctions(db: Ledger, after: Ledger, p: Id, decision: Decision)
    requires exists r :: Reviewed(db, after, p, r, decision)
    ensures NewlyApprovedIsSanctioned(after, db.proofs[p].agreement, db.proofs[p].milestone)
  {
    var a, m := db.proofs[p].agreement, db.proofs[p].milestone;
    if decision == ApproveProof {
      assert Accepts(after.proofs[p], Scope(a, None)) && Accepts(after.proofs[p], Scope(a, Some(m)));
    }
  }

  lemma ReviewedReviews(db: Ledger, after: Ledger, p: Id, r: Id, decision: Decision)
    requires OneReviewAtATime(db) && NoneUnderReview(db) && OneVerdictPerProof(db)
    requires Reviewed(db, after, p, r, decision)
    ensures ReviewsAreExclusive(after)
  {
    hide OneReviewAtATime, NoneUnderReview, OneVerdictPerProof;
    ReviewedState(db, after, p, r, decision);
    ReviewedVerdicts(db, after, p, r, decision);
    ReviewedSilence(db, after, p, r, decision);
  }

  lemma ReviewedSilence(db: Ledger, after: Ledger, p: Id, r: Id, decision: Decision)
    requires NoneUnderReview(db) && Reviewed(db, after, p, r, decision)
    ensures NoneUnderReview(after)
  {
    hide NoneUnderReview, WorksOn;
    WorkLeavesEscrows(db, after, db.proofs[p].agreement, db.proofs[p].milestone);
    WorkKeepsSilence(db, after, db.proofs[p].agreement, db.proofs[p].milestone);
  }

  lemma ReviewedBefore(db: Ledger, after: Ledger, p: Id, r: Id, decision: Decision)
    requires OneReviewAtATime(db) && NoneUnderReview(db) && Reviewed(db, after, p, r, decision)
    ensures p in db.proofs
    ensures Unreviewed(db, db.proofs[p].agreement) == {p}
    ensures SubmittedMilestones(db, db.proofs[p].agreement) == {db.proofs[p].milestone}
    ensures OpenDisputes(db, db.proofs[p].agreement) == {}
  {
    var a := db.proofs[p].agreement;
    assert a in db.agreements;
    assert ReviewState(db, a);
    assert p in Unreviewed(db, a);
  }

  lemma ReviewedState(db: Ledger, after: Ledger, p: Id, r: Id, decision: Decision)
    requires OneReviewAtATime(db) && NoneUnderReview(db) && Reviewed(db, after, p, r, decision)
    ensures OneReviewAtATime(after)
  {
    hide *;
    ReviewedBefore(db, after, p, r, decision);
    ReviewedWorks(db, after, p, r, decision);
    var a, m := db.proofs[p].agreement, db.proofs[p].milestone;
    WorkLeavesEscrows(db, after, a, m);
    JudgedProofLeaves(db, after, p, after.proofs[p]);
    MovedMilestoneLeaves(db, after, a, m);
    SameDisputesOpen(db, after);
    JudgedState(after, a);
    WorkKeepsReviewing(db, after, a, m);
  }

  lemma SameDisputesOpen(db: Ledger, after: Ledger)
    requires after.disputes == db.disputes
    ensures forall b :: OpenDisputes(after, b) == OpenDisputes(db, b)
  {
  }

  lemma ReviewedWorks(db: Ledger, after: Ledger, p: Id, r: Id, decision: Decision)
    requires Reviewed(db, after, p, r, decision)
    ensures p in db.proofs && WorksOn(db, after, db.proofs[p].agreement, db.proofs[p].milestone)
    ensures after.proofs == db.proofs[p := db.proofs[p].(status := ProofStatusFor(decision))]
    ensures !Awaiting(after.proofs[p]) && after.disputes == db.disputes
    ensures db.proofs[p].agreement in after.agreements
    ensures after.agreements[db.proofs[p].agreement].status != A.ProofSubmitted
    ensures db.proofs[p].milestone in after.milestones
    ensures after.milestones[db.proofs[p].milestone].status != M.ProofSubmitted
  {
  }

  /** An agreement that waits for nobody, before or after its approval. */
  lemma JudgedState(db: Ledger, a: Id)
    requires a in db.agreements && db.agreements[a].status != A.ProofSubmitted
    requires Unreviewed(db, a) == {} && SubmittedMilestones(db, a) == {} && OpenDisputes(db, a) == {}
    ensures ReviewState(db, a)
  {
    hide Unreviewed, SubmittedMilestones, OpenDisputes;
  }

  lemma ReviewedVerdicts(db: Ledger, after: Ledger, p: Id, r: Id, decision: Decision)
    requires OneVerdictPerProof(db) && NoneUnderReview(db) && Reviewed(db, after, p, r, decision)
    ensures OneVerdictPerProof(after)
  {
    assert db.proofs[p].status == Submitted by { hide OneVerdictPerProof, WorksOn; }
    hide WorksOn, NoneUnderReview;
    OneMoreVerdict(db, after, p, r, decision);
  }

  lemma OneMoreVerdict(db: Ledger, after: Ledger, p: Id, r: Id, decision: Decision)
    requires OneVerdictPerProof(db) && p in db.proofs && db.proofs[p].status == Submitted
    requires after.proofs == db.proofs[p := db.proofs[p].(status := ProofStatusFor(decision))]
    requires r !in db.reviews && after.reviews == db.reviews[r := Review(p, decision)]
    ensures OneVerdictPerProof(after)
  {
    forall q | q in after.proofs && after.proofs[q].status != Submitted
      ensures exists s | s in after.reviews :: after.reviews[s].proof == q
    {
      if q == p {
        assert after.reviews[r].proof == q;
      } else {
        var s :| s in db.reviews && db.reviews[s].proof == q;
        assert after.reviews[s].proof == q;
      }
    }
  }

  // Opening a dispute.

  lemma OpenDisputeKeeps(db: Ledger, a: Id, m: Id, d: Id)
    requires Inv(db) && OpenDispute(db, a, m, d).Ok?
    ensures Inv(OpenDispute(db, a, m, d).value)
  {
    hide *;
    var after := OpenDispute(db, a, m, d).value;
    InvParts(db);
    DisputeWorks(db, after, a, m, d);
    WorkLeavesEscrows(db, after, a, m);
    DisputeTerms(db, after, a, m, d);
    DisputeReviews(db, after, a, m, d);
    EvidenceKept(db, after);
    NothingApproved(after, a, m);
    WorkKeepsInv(db, after, a, m);
  }

  lemma DisputeWorks(db: Ledger, after: Ledger, a: Id, m: Id, d: Id)
    requires OpenDispute(db, a, m, d) == Ok(after)
    ensures WorksOn(db, after, a, m)
    ensures a in db.agreements && db.agreements[a].status in DISPUTABLE
    ensures a in after.agreements && after.agreements[a].status == A.Disputed
    ensures m in after.milestones && after.milestones[m].status == M.Disputed
    ensures d !in db.disputes && after.disputes == db.disputes[d := Dispute(a, m, Open)]
    ensures after.proofs == db.proofs && after.reviews == db.reviews
  {
  }

  lemma DisputeTerms(db: Ledger, after: Ledger, a: Id, m: Id, d: Id)
    requires Terms(db) && WorksOn(db, after, a, m) && after.proofs == db.proofs
    requires d !in db.disputes && after.disputes == db.disputes[d := Dispute(a, m, Open)]
    ensures Terms(after)
  {
    assert SplitsAreExact(after) by {
      hide Allocations, OneEscrowPerScope, References, SharesOut;
      OtherSplitsHold(db, after, d);
    }
    hide Allocations, OneEscrowPerScope, KnownOperation, SplitsAreExact;
    assert KnownScope(db, Scope(a, Some(m)));
    WorkKeepsTerms(db, after, a, m);
  }

  lemma OtherSplitsHold(db: Ledger, after: Ledger, d: Id)
    requires SplitsAreExact(db) && after.escrows == db.escrows
    requires forall c | c in after.disputes && c != d :: c in db.disputes && after.disputes[c] == db.disputes[c]
    requires d in after.disputes
    requires after.disputes[d].status.Resolved? && after.disputes[d].status.resolution.Split? ==>
               exists e :: SharesOut(after, after.disputes[d], e)
    ensures SplitsAreExact(after)
  {
    forall c | c in after.disputes && c != d && after.disputes[c].status.Resolved? && after.disputes[c].status.resolution.Split?
      ensures exists e :: SharesOut(after, after.disputes[c], e)
    {
      var e :| SharesOut(db, db.disputes[c], e);
      assert SharesOut(after, after.disputes[c], e);
    }
  }

  lemma DisputeReviews(db: Ledger, after: Ledger, a: Id, m: Id, d: Id)
    requires OneReviewAtATime(db) && NoneUnderReview(db) && OneVerdictPerProof(db)
    requires WorksOn(db, after, a, m) && a in db.agreements && db.agreements[a].status in DISPUTABLE
    requires a in after.agreements && after.agreements[a].status == A.Disputed
    requires m in after.milestones && after.milestones[m].status == M.Disputed
    requires d !in db.disputes && after.disputes == db.disputes[d := Dispute(a, m, Open)]
    requires after.proofs == db.proofs && after.reviews == db.reviews
    ensures ReviewsAreExclusive(after)
  {
    assert OneVerdictPerProof(after);
    hide OneVerdictPerProof, OneReviewAtATime;
    assert NoneUnderReview(after) by {
      hide WorksOn, NoneUnderReview;
      WorkKeepsSilence(db, after, a, m);
    }
    DisputedState(db, after, a, m, d);
  }

  lemma DisputedState(db: Ledger, after: Ledger, a: Id, m: Id, d: Id)
    requires OneReviewAtATime(db) && NoneUnderReview(db) && WorksOn(db, after, a, m)
    requires a in db.agreements && db.agreements[a].status in DISPUTABLE
    requires a in after.agreements && after.agreements[a].status == A.Disputed
    requires m in after.milestones && after.milestones[m].status == M.Disputed
    requires d !in db.disputes && after.disputes == db.disputes[d := Dispute(a, m, Open)]
    requires after.proofs == db.proofs
    ensures OneReviewAtATime(after)
  {
    DisputableBefore(db, a);
    hide *;
    WorkLeavesEscrows(db, after, a, m);
    DisputeChanges(db, after, d, Dispute(a, m, Open));
    MovedMilestoneLeaves(db, after, a, m);
    SameProofsWait(db, after);
    DisputedOnce(after, a);
    WorkKeepsReviewing(db, after, a, m);
  }

  lemma DisputableBefore(db: Ledger, a: Id)
    requires OneReviewAtATime(db) && a in db.agreements && db.agreements[a].status in DISPUTABLE
    ensures AtMostOne(Unreviewed(db, a)) && AtMostOne(SubmittedMilestones(db, a)) && OpenDisputes(db, a) == {}
  {
    assert ReviewState(db, a);
  }

  lemma DisputedOnce(db: Ledger, a: Id)
    requires a in db.agreements && db.agreements[a].status == A.Disputed
    requires exists s :: AtMostOne(s) && Unreviewed(db, a) <= s
    requires exists s :: AtMostOne(s) && SubmittedMilestones(db, a) <= s
    requires exists d :: OpenDisputes(db, a) <= {d}
    ensures ReviewState(db, a)
  {
    hide Unreviewed, SubmittedMilestones, OpenDisputes;
  }

  // Resolving a dispute.

  lemma ResolveDisputeKeeps(db: Ledger, d: Id, resolution: Resolution)
    requires Inv(db) && ResolveDispute(db, d, resolution).Ok?
    ensures Inv(ResolveDispute(db, d, resolution).value)
  {
    hide *;
    var after := ResolveDispute(db, d, resolution).value;
    InvParts(db);
    ResolutionWorks(db, after, d, resolution);
    var a, m := db.disputes[d].agreement, db.disputes[d].milestone;
    WorkLeavesEscrows(db, after, a, m);
    ResolutionTerms(db, after, d, resolution);
    ResolutionReviews(db, after, d, resolution);
    EvidenceKept(db, after);
    ResolutionSanctions(db, after, d, resolution);
    WorkKeepsInv(db, after, a, m);
  }

  /** What a resolution writes. */
  ghost predicate ResolvedBy(db: Ledger, after: Ledger, d: Id, resolution: Resolution) {
    && d in db.disputes && db.disputes[d].status == Open
    && WorksOn(db, after, db.disputes[d].agreement, db.disputes[d].milestone)
    && db.agreements[db.disputes[d].agreement].status == A.Disputed
    && db.milestones[db.disputes[d].milestone].status == M.Disputed
    && after.agreements[db.disputes[d].agreement].status == (if resolution == Release then A.Approved else A.Disputed)
    && after.milestones[db.disputes[d].milestone].status == (if resolution == Release then M.Approved else M.Disputed)
    && after.disputes == db.disputes[d := db.disputes[d].(status := Resolved(resolution))]
    && after.proofs == db.proofs && after.reviews == db.reviews
  }

  lemma ResolutionWorks(db: Ledger, after: Ledger, d: Id, resolution: Resolution)
    requires ResolveDispute(db, d, resolution) == Ok(after)
    ensures ResolvedBy(db, after, d, resolution)
    ensures d in db.disputes && WorksOn(db, after, db.disputes[d].agreement, db.disputes[d].milestone)
    ensures after.disputes == db.disputes[d := db.disputes[d].(status := Resolved(resolution))]
    ensures db.disputes[d].status == Open && after.proofs == db.proofs
    ensures SplitError(db, db.disputes[d].agreement, db.disputes[d].milestone, resolution).None?
  {
  }

  /** A split that is let through shares out an escrow of the disputed scope. */
  lemma SplitFindsEscrow(db: Ledger, dispute: Dispute, resolution: Resolution) returns (e: Id)
    requires resolution.Split? && SplitError(db, dispute.agreement, dispute.milestone, resolution).None?
    ensures SharesOut(db, dispute.(status := Resolved(resolution)), e)
  {
    var active := EscrowsIn(db, Scope(dispute.agreement, Some(dispute.milestone)), E.ACTIVE);
    e :| && e in active && db.escrows[e].status == E.Funded
         && CheckSplit(resolution.workerAmount, resolution.clientAmount, db.escrows[e].amount).None?;
    CheckedSplitIsExact(resolution.workerAmount, resolution.clientAmount, db.escrows[e].amount);
  }

  /** What the split check lets through is exactly a division of the settlement, in range. */
  lemma CheckedSplitIsExact(workerAmount: nat, clientAmount: nat, settlement: nat)
    ensures CheckSplit(workerAmount, clientAmount, settlement).None? <==>
            workerAmount + clientAmount == settlement && workerAmount <= MAX_SHANNONS && clientAmount <= MAX_SHANNONS
  {
  }

  lemma ResolutionTerms(db: Ledger, after: Ledger, d: Id, resolution: Resolution)
    requires Terms(db) && ResolvedBy(db, after, d, resolution)
    requires SplitError(db, db.disputes[d].agreement, db.disputes[d].milestone, resolution).None?
    ensures Terms(after)
  {
    hide SplitError;
    assert SplitsAreExact(after) by {
      hide Allocations, OneEscrowPerScope, References, SharesOut;
      if resolution.Split? {
        var e := SplitFindsEscrow(db, db.disputes[d], resolution);
        assert SharesOut(after, after.disputes[d], e) by { SameSharing(db, after, after.disputes[d], e); }
      }
      OtherSplitsHold(db, after, d);
    }
    hide Allocations, OneEscrowPerScope, KnownOperation, SplitsAreExact;
    WorkKeepsTerms(db, after, db.disputes[d].agreement, db.disputes[d].milestone);
  }

  lemma SameSharing(db: Ledger, after: Ledger, dispute: Dispute, e: Id)
    requires after.escrows == db.escrows && SharesOut(db, dispute, e)
    ensures SharesOut(after, dispute, e)
  {
  }

  lemma ResolutionSanctions(db: Ledger, after: Ledger, d: Id, resolution: Resolution)
    requires ResolvedBy(db, after, d, resolution)
    ensures NewlyApprovedIsSanctioned(after, db.disputes[d].agreement, db.disputes[d].milestone)
  {
    var a, m := db.disputes[d].agreement, db.disputes[d].milestone;
    if resolution == Release {
      assert ResolvesToRelease(after.disputes[d], Scope(a, None));
      assert ResolvesToRelease(after.disputes[d], Scope(a, Some(m)));
    }
  }

  lemma ResolutionReviews(db: Ledger, after: Ledger, d: Id, resolution: Resolution)
    requires OneReviewAtATime(db) && NoneUnderReview(db) && OneVerdictPerProof(db)
    requires ResolvedBy(db, after, d, resolution)
    ensures ReviewsAreExclusive(after)
  {
    var a, m := db.disputes[d].agreement, db.disputes[d].milestone;
    assert OneVerdictPerProof(after);
    hide OneVerdictPerProof, OneReviewAtATime;
    assert NoneUnderReview(after) by {
      hide WorksOn, NoneUnderReview;
      WorkLeavesEscrows(db, after, a, m);
      WorkKeepsSilence(db, after, a, m);
    }
    ResolvedState(db, after, d, resolution);
  }

  lemma ResolvedState(db: Ledger, after: Ledger, d: Id, resolution: Resolution)
    requires OneReviewAtATime(db) && ResolvedBy(db, after, d, resolution)
    ensures OneReviewAtATime(after)
  {
    hide *;
    ResolvedBefore(db, after, d, resolution);
    var a, m := db.disputes[d].agreement, db.disputes[d].milestone;
    WorkLeavesEscrows(db, after, a, m);
    DisputeChanges(db, after, d, after.disputes[d]);
    MovedMilestoneLeaves(db, after, a, m);
    SameProofsWait(db, after);
    SettledState(after, a);
    WorkKeepsReviewing(db, after, a, m);
  }

  lemma ResolvedBefore(db: Ledger, after: Ledger, d: Id, resolution: Resolution)
    requires OneReviewAtATime(db) && ResolvedBy(db, after, d, resolution)
    ensures d in db.disputes && WorksOn(db, after, db.disputes[d].agreement, db.disputes[d].milestone)
    ensures after.disputes == db.disputes[d := db.disputes[d].(status := Resolved(resolution))]
    ensures after.proofs == db.proofs
    ensures OpenDisputes(db, db.disputes[d].agreement) == {d}
    ensures AtMostOne(Unreviewed(db, db.disputes[d].agreement))
    ensures AtMostOne(SubmittedMilestones(db, db.disputes[d].agreement))
    ensures db.disputes[d].milestone in after.milestones
    ensures after.milestones[db.disputes[d].milestone].status != M.ProofSubmitted
    ensures db.disputes[d].agreement in after.agreements
    ensures after.agreements[db.disputes[d].agreement].status in {A.Approved, A.Disputed}
  {
    assert ReviewState(db, db.disputes[d].agreement);
    assert d in OpenDisputes(db, db.disputes[d].agreement);
  }

  lemma SettledState(db: Ledger, a: Id)
    requires a in db.agreements && db.agreements[a].status in {A.Approved, A.Disputed}
    requires exists s :: AtMostOne(s) && Unreviewed(db, a) <= s
    requires exists s :: AtMostOne(s) && SubmittedMilestones(db, a) <= s
    requires OpenDisputes(db, a) == {}
    ensures ReviewState(db, a)
  {
    hide Unreviewed, SubmittedMilestones, OpenDisputes;
  }
}
