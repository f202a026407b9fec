/**
 The rows that one app's requests share, and what the lookups over them find.
 Ids stand for the generated row ids; amounts stand for the integers that the
 canonical amount strings denote.
 */
module Ledger {
  import opened Results
  import opened Lifecycle
  import A = AgreementMachine
  import M = MilestoneMachine
  import E = EscrowMachine

  type Id = nat
  type Hash = nat

  /** The largest amount of shannons, an unsigned 64-bit number. */
  const MAX_SHANNONS: nat := 18446744073709551615

  datatype SettlementStatus = Unfunded | FundingPending | FundsHeld | PayoutConfirmed | RefundConfirmed

  datatype Agreement = Agreement(amount: nat, currency: string, status: A.Status, settlement: SettlementStatus)

  datatype Milestone = Milestone(agreement: Id, amount: nat, order: int, reference: Option<string>, status: M.Status)

  datatype Proof = Proof(agreement: Id, milestone: Id, status: ProofStatus)

  datatype Review = Review(proof: Id, decision: Decision)

  datatype DisputeStatus = Open | Resolved(resolution: Resolution)

  datatype Dispute = Dispute(agreement: Id, milestone: Id, status: DisputeStatus)

  /** The mock and manual rails live on the sandbox network, the ckb rail on a chain. */
  datatype Rail = Mock | Manual | Ckb

  datatype Scope = Scope(agreement: Id, milestone: Option<Id>)

  datatype Escrow = Escrow(scope: Scope, amount: nat, currency: string, rail: Rail, status: E.Status)

  datatype Kind = LockTx | ReleaseTx | RefundTx

  datatype TxStatus =
    | TxPending
    | Broadcast
    | Committed
    | Confirmed
    | TxReconciliationRequired
    | TxRejected
    | Reorged
    | TxFailed

  /** The operation id of a transaction row, unique in the app. */
  datatype Operation = Operation(escrow: Id, kind: Kind)

  datatype Transaction = Transaction(status: TxStatus, hash: Option<Hash>)

  datatype Ledger = Ledger(
    agreements: map<Id, Agreement>,
    milestones: map<Id, Milestone>,
    proofs: map<Id, Proof>,
    reviews: map<Id, Review>,
    disputes: map<Id, Dispute>,
    escrows: map<Id, Escrow>,
    transactions: map<Operation, Transaction>)

  const EMPTY: Ledger := Ledger(map[], map[], map[], map[], map[], map[], map[])

  /** The error codes that reach the caller. */
  datatype Error =
    | AgreementNotFound
    | AgreementNotManaged
    | MilestoneNotFound
    | ProofNotFound
    | DisputeNotFound
    | EscrowNotFound
    | InvalidAmount
    | AmountOutOfRange
    | CurrencyMismatch
    | MilestoneTotalExceedsAgreement
    | MilestoneAlreadyExists
    | FundedAgreementImmutable
    | EscrowAmountMustEqualScope
    | EscrowAmountExceedsScope
    | CkbRequiresMilestone
    | EscrowTerminalStateExists
    | ActiveEscrowExists
    | ActiveDisputeExists
    | InvalidStateTransition
    | LifecycleConflict
    | ProofAlreadyReviewed
    | ProofSubmissionNotAllowed
    | ProofSubmissionRequiresActiveAgreement
    | ProofSubmissionRequiresActiveMilestone
    | ProofReviewInvalidAgreementState
    | ProofReviewInvalidMilestoneState
    | DisputeAlreadyResolved
    | DisputeFundedEscrowRequired
    | InvalidSettlementSplit
    | EscrowNotCreated
    | InvalidFundingStatus
    | EscrowNotFunded
    | EscrowAlreadyReleased
    | EscrowAlreadyRefunded
    | EscrowReleaseNotAllowed
    | AgreementAlreadyReleased
    | SettlementStateChanged
    | ReconciliationIncomplete
    | ReconciliationConflict
    | UniqueConstraint

  // ---------------------------------------------------------------- row updates

  /** The settlement column that goes with a new agreement status. */
  function SettlementFor(status: A.Status, current: SettlementStatus): SettlementStatus {
    match status
    case FundingRequired => FundingPending
    case Funded => FundsHeld
    case Released => PayoutConfirmed
    case Refunded => RefundConfirmed
    case _ => current
  }

  function WithAgreementStatus(db: Ledger, a: Id, status: A.Status): Ledger
    requires a in db.agreements
  {
    var row := db.agreements[a];
    db.(agreements := db.agreements[a := row.(status := status, settlement := SettlementFor(status, row.settlement))])
  }

  function WithMilestoneStatus(db: Ledger, m: Id, status: M.Status): Ledger
    requires m in db.milestones
  {
    db.(milestones := db.milestones[m := db.milestones[m].(status := status)])
  }

  function WithEscrowStatus(db: Ledger, e: Id, status: E.Status): Ledger
    requires e in db.escrows
  {
    db.(escrows := db.escrows[e := db.escrows[e].(status := status)])
  }

  // ---------------------------------------------------------------- lookups

  predicate MilestoneOf(db: Ledger, m: Id, a: Id) {
    m in db.milestones && db.milestones[m].agreement == a
  }

  function ScopeAmount(db: Ledger, scope: Scope): nat
    requires scope.agreement in db.agreements
    requires scope.milestone.Some? ==> scope.milestone.value in db.milestones
  {
    if scope.milestone.Some? then db.milestones[scope.milestone.value].amount
    else db.agreements[scope.agreement].amount
  }

  predicate Awaiting(proof: Proof) {
    proof.status == Submitted || proof.status == ProofStatus.UnderReview
  }

  predicate Accepts(proof: Proof, scope: Scope) {
    && proof.status == Accepted
    && proof.agreement == scope.agreement
    && (scope.milestone.Some? ==> proof.milestone == scope.milestone.value)
  }

  predicate ResolvesToRelease(dispute: Dispute, scope: Scope) {
    && dispute.status == Resolved(Release)
    && dispute.agreement == scope.agreement
    && (scope.milestone.Some? ==> dispute.milestone == scope.milestone.value)
  }

  predicate ReleaseDisputeIn(db: Ledger, scope: Scope) {
    exists d | d in db.disputes :: ResolvesToRelease(db.disputes[d], scope)
  }

  predicate AcceptedProofIn(db: Ledger, scope: Scope) {
    exists p | p in db.proofs :: Accepts(db.proofs[p], scope)
  }

  predicate UnresolvedDispute(db: Ledger, a: Id, m: Id) {
    exists d | d in db.disputes ::
      db.disputes[d].status == Open && db.disputes[d].agreement == a && db.disputes[d].milestone == m
  }

  /** The escrow rows of a settlement scope whose status is listed. */
  function EscrowsIn(db: Ledger, scope: Scope, statuses: set<E.Status>): set<Id> {
    set e | e in db.escrows && db.escrows[e].scope == scope && db.escrows[e].status in statuses
  }

  function EscrowsOf(db: Ledger, a: Id): set<Id> {
    set e | e in db.escrows && db.escrows[e].scope.agreement == a
  }

  /** Terminal lookup of a scope; a milestone is looked up by its own id alone. */
  function TerminalEscrows(db: Ledger, scope: Scope): set<Id> {
    set e | e in db.escrows && db.escrows[e].status in E.TERMINAL &&
            (if scope.milestone.Some? then db.escrows[e].scope.milestone == scope.milestone
             else db.escrows[e].scope == scope)
  }
}
