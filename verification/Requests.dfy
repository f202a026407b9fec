/**
 What each database transaction of the service does, as a function from the
 ledger before it to the ledger after it.  A refused request throws and is
 rolled back, so it has an error and no ledger.
 */
module Requests {
  import opened Results
  import opened Lifecycle
  import opened Ledger
  import opened Sums
  import A = AgreementMachine
  import M = MilestoneMachine
  import E = EscrowMachine
  import R = Reconciliation

  // ---------------------------------------------------------------- agreements

  ghost function CreateAgreement(db: Ledger, a: Id, amount: int, currency: string): Result<Ledger, Error> {
    if a in db.agreements then Err(UniqueConstraint)
    else if !(1 <= amount <= MAX_SHANNONS) then Err(InvalidAmount)
    else Ok(db.(agreements := db.agreements[a := Agreement(amount, currency, A.Draft, Unfunded)]))
  }

  /** Accepting walks a draft through pending acceptance in one go. */
  function AcceptAgreement(db: Ledger, a: Id): Result<Ledger, Error> {
    if a !in db.agreements then Err(AgreementNotFound)
    else if db.agreements[a].status != A.Draft then Err(InvalidStateTransition)
    else Ok(WithAgreementStatus(db, a, A.Accepted))
  }

  function MoveAgreement(db: Ledger, a: Id, to: A.Status): Result<Ledger, Error> {
    if a !in db.agreements then Err(AgreementNotFound)
    else if !A.CanTransition(db.agreements[a].status, to) then Err(InvalidStateTransition)
    else Ok(WithAgreementStatus(db, a, to))
  }

  // ---------------------------------------------------------------- milestones

  const IMMUTABLE: set<A.Status> :=
    {A.Funded, A.InProgress, A.ProofSubmitted, A.UnderReview, A.Approved, A.ReleasePending, A.Released,
     A.Refunded, A.Disputed}

  function Orders(db: Ledger, a: Id): set<int> {
    set m | m in db.milestones && db.milestones[m].agreement == a :: db.milestones[m].order
  }

  predicate IsLargest(s: set<int>, x: int) {
    x in s && forall y | y in s :: y <= x
  }

  lemma Member<T>(s: set<T>) returns (x: T)
    requires s != {}
    ensures x in s
  {
    x :| x in s;
  }

  lemma {:induction false} HasLargest(s: set<int>)
    requires |s| > 0
    ensures exists x :: IsLargest(s, x)
  {
    var x := Member(s);
    var rest := s - {x};
    if rest == {} {
      assert s == {x};
      assert IsLargest(s, x);
    } else {
      HasLargest(rest);
      var z :| IsLargest(rest, z);
      forall y | y in s ensures y <= if x < z then z else x {
        assert y == x || y in rest;
      }
      assert IsLargest(s, if x < z then z else x);
    }
  }

  /** The largest order among the milestones of an agreement, zero when it has none. */
  function LastOrder(db: Ledger, a: Id): (last: int)
    ensures if Orders(db, a) == {} then last == 0 else IsLargest(Orders(db, a), last)
  {
    if |Orders(db, a)| == 0 then 0
    else
      HasLargest(Orders(db, a));
      var last :| last in Orders(db, a) && IsLargest(Orders(db, a), last);
      last
  }

  /** The order of a new milestone: the one asked for, or the next. */
  function OrderFor(db: Ledger, a: Id, order: Option<int>): int {
    match order
    case Some(asked) => asked
    case None => LastOrder(db, a) + 1
  }

  /** A unique constraint is in the way: orders are unique in their agreement, external references in the app. */
  predicate Taken(db: Ledger, a: Id, order: int, reference: Option<string>) {
    exists m | m in db.milestones ::
      || (db.milestones[m].agreement == a && db.milestones[m].order == order)
      || (reference.Some? && db.milestones[m].reference == reference)
  }

  /** Without an order of its own a milestone collides only over its external reference. */
  lemma DefaultOrderIsFree(db: Ledger, a: Id, reference: Option<string>)
    ensures Taken(db, a, OrderFor(db, a, None), reference)
            <==> reference.Some? && exists m | m in db.milestones :: db.milestones[m].reference == reference
  {
    forall m | m in db.milestones && db.milestones[m].agreement == a
      ensures db.milestones[m].order < OrderFor(db, a, None)
    {
      assert db.milestones[m].order in Orders(db, a);
    }
  }

  ghost function CreateMilestone(db: Ledger, a: Id, m: Id, amount: int, currency: string, order: Option<int>,
                                 reference: Option<string>): Result<Ledger, Error>
  {
    if a !in db.agreements then Err(AgreementNotFound)
    else if db.agreements[a].status in IMMUTABLE then Err(FundedAgreementImmutable)
    else if amount < 1 then Err(InvalidAmount)
    else if amount > MAX_SHANNONS then Err(AmountOutOfRange)
    else if Allocated(db, a) + amount > db.agreements[a].amount then Err(MilestoneTotalExceedsAgreement)
    else if currency != db.agreements[a].currency then Err(CurrencyMismatch)
    else if m in db.milestones || Taken(db, a, OrderFor(db, a, order), reference) then Err(MilestoneAlreadyExists)
    else
      var row := Milestone(a, amount, OrderFor(db, a, order), reference, M.Pending);
      Ok(db.(milestones := db.milestones[m := row]))
  }

  // ---------------------------------------------------------------- proofs

  const OVER: set<A.Status> := {A.Released, A.Refunded, A.Cancelled, A.Expired}
  const MILESTONE_OVER: set<M.Status> := {M.Released, M.Refunded}
  const SUBMITTABLE: set<A.Status> := {A.Funded, A.InProgress, A.Rejected}
  const MILESTONE_SUBMITTABLE: set<M.Status> := {M.Funded, M.InProgress, M.Rejected}

  function SubmitProof(db: Ledger, a: Id, m: Id, p: Id): Result<Ledger, Error> {
    if a !in db.agreements then Err(AgreementNotFound)
    else if !MilestoneOf(db, m, a) then Err(MilestoneNotFound)
    else if db.agreements[a].status in OVER then Err(ProofSubmissionNotAllowed)
    else if db.agreements[a].status !in SUBMITTABLE then Err(ProofSubmissionRequiresActiveAgreement)
    else if db.milestones[m].status in MILESTONE_OVER then Err(ProofSubmissionNotAllowed)
    else if db.milestones[m].status !in MILESTONE_SUBMITTABLE then Err(ProofSubmissionRequiresActiveMilestone)
    else if p in db.proofs then Err(UniqueConstraint)
    else
      var added := db.(proofs := db.proofs[p := Proof(a, m, Submitted)]);
      Ok(WithMilestoneStatus(WithAgreementStatus(added, a, A.ProofSubmitted), m, M.ProofSubmitted))
  }

  /** A reviewed agreement and milestone are approved, rejected, or at work again. */
  function AgreementVerdict(decision: Decision): A.Status {
    match decision
    case ApproveProof => A.Approved
    case RejectProof => A.Rejected
    case RequestChanges => A.InProgress
  }

  function MilestoneVerdict(decision: Decision): M.Status {
    match decision
    case ApproveProof => M.Approved
    case RejectProof => M.Rejected
    case RequestChanges => M.InProgress
  }

  function ReviewProof(db: Ledger, p: Id, r: Id, decision: Decision): Result<Ledger, Error> {
    if p !in db.proofs then Err(ProofNotFound)
    else
      var proof := db.proofs[p];
      var a, m := proof.agreement, proof.milestone;
      if !Awaiting(proof) then Err(ProofAlreadyReviewed)
      else if a !in db.agreements then Err(AgreementNotFound)
      else if !MilestoneOf(db, m, a) then Err(MilestoneNotFound)
      else if db.agreements[a].status !in {A.ProofSubmitted, A.UnderReview} then Err(ProofReviewInvalidAgreementState)
      else if db.milestones[m].status !in {M.ProofSubmitted, M.UnderReview} then Err(ProofReviewInvalidMilestoneState)
      else if r in db.reviews then Err(UniqueConstraint)
      else
        var judged := WithMilestoneStatus(WithAgreementStatus(db, a, AgreementVerdict(decision)),
                                          m, MilestoneVerdict(decision));
        Ok(judged.(proofs := judged.proofs[p := proof.(status := ProofStatusFor(decision))],
                   reviews := judged.reviews[r := Review(p, decision)]))
  }

  // ---------------------------------------------------------------- disputes

  const DISPUTABLE: set<A.Status> := {A.Funded, A.InProgress, A.ProofSubmitted, A.UnderReview}
  const MILESTONE_DISPUTABLE: set<M.Status> := {M.Funded, M.InProgress, M.ProofSubmitted, M.UnderReview}

  ghost function OpenDispute(db: Ledger, a: Id, m: Id, d: Id): Result<Ledger, Error> {
    if a !in db.agreements then Err(AgreementNotFound)
    else if !MilestoneOf(db, m, a) then Err(MilestoneNotFound)
    else if UnresolvedDispute(db, a, m) then Err(ActiveDisputeExists)
    else if db.agreements[a].status !in DISPUTABLE then Err(InvalidStateTransition)
    else if db.milestones[m].status !in MILESTONE_DISPUTABLE then Err(InvalidStateTransition)
    else if d in db.disputes then Err(UniqueConstraint)
    else
      var added := db.(disputes := db.disputes[d := Dispute(a, m, Open)]);
      Ok(WithMilestoneStatus(WithAgreementStatus(added, a, A.Disputed), m, M.Disputed))
  }

  /** The two shares are amounts, none exceeds the escrow, and together they are the escrow. */
  function CheckSplit(workerAmount: nat, clientAmount: nat, settlement: nat): Option<Error> {
    if workerAmount > MAX_SHANNONS || clientAmount > MAX_SHANNONS then Some(AmountOutOfRange)
    else if workerAmount > settlement || clientAmount > settlement then Some(InvalidSettlementSplit)
    else if workerAmount + clientAmount != settlement then Some(InvalidSettlementSplit)
    else None
  }

  ghost function SplitError(db: Ledger, a: Id, m: Id, resolution: Resolution): Option<Error> {
    if !resolution.Split? then None
    else
      var active := EscrowsIn(db, Scope(a, Some(m)), E.ACTIVE);
      if active == {} then Some(DisputeFundedEscrowRequired)
      else
        var e :| e in active;
        if db.escrows[e].status != E.Funded then Some(DisputeFundedEscrowRequired)
        else CheckSplit(resolution.workerAmount, resolution.clientAmount, db.escrows[e].amount)
  }

  ghost function ResolveDispute(db: Ledger, d: Id, resolution: Resolution): Result<Ledger, Error> {
    if d !in db.disputes then Err(DisputeNotFound)
    else
      var dispute := db.disputes[d];
      var a, m := dispute.agreement, dispute.milestone;
      if dispute.status != Open then Err(DisputeAlreadyResolved)
      else if a !in db.agreements then Err(AgreementNotFound)
      else if !MilestoneOf(db, m, a) then Err(MilestoneNotFound)
      else if SplitError(db, a, m, resolution).Some? then Err(SplitError(db, a, m, resolution).value)
      else if db.agreements[a].status != A.Disputed then Err(InvalidStateTransition)
      else if db.milestones[m].status != M.Disputed then Err(InvalidStateTransition)
      else
        var closed := db.(disputes := db.disputes[d := dispute.(status := Resolved(resolution))]);
        if resolution == Release then
          Ok(WithMilestoneStatus(WithAgreementStatus(closed, a, A.Approved), m, M.Approved))
        else Ok(closed)
  }

  // ---------------------------------------------------------------- escrow creation

  function ScopeError(db: Ledger, scope: Scope): Option<Error> {
    if scope.agreement !in db.agreements then Some(AgreementNotFound)
    else if scope.milestone.Some? && !MilestoneOf(db, scope.milestone.value, scope.agreement) then
      Some(MilestoneNotFound)
    else None
  }

  function AmountError(amount: int, scopeAmount: nat, exact: bool): Option<Error> {
    if amount < 1 then Some(InvalidAmount)
    else if amount > MAX_SHANNONS then Some(AmountOutOfRange)
    else if exact && amount != scopeAmount then Some(EscrowAmountMustEqualScope)
    else if amount > scopeAmount then Some(EscrowAmountExceedsScope)
    else None
  }

  function ReserveCreation(db: Ledger, e: Id, scope: Scope, amount: int, currency: string, rail: Rail)
    : Result<Ledger, Error>
  {
    if rail == Ckb && scope.milestone.None? then Err(CkbRequiresMilestone)
    else if ScopeError(db, scope).Some? then Err(ScopeError(db, scope).value)
    else if currency != db.agreements[scope.agreement].currency then Err(CurrencyMismatch)
    else if AmountError(amount, ScopeAmount(db, scope), rail == Ckb).Some? then
      Err(AmountError(amount, ScopeAmount(db, scope), rail == Ckb).value)
    else if TerminalEscrows(db, scope) != {} then Err(EscrowTerminalStateExists)
    else if EscrowsIn(db, scope, E.ACTIVE) != {} then Err(ActiveEscrowExists)
    else if e in db.escrows || Operation(e, LockTx) in db.transactions then Err(UniqueConstraint)
    else Ok(db.(escrows := db.escrows[e := Escrow(scope, amount, currency, rail, E.NotCreated)],
                transactions := db.transactions[Operation(e, LockTx) := Transaction(TxPending, None)]))
  }

  /** The adapter refused: the reservation is taken back. */
  function DiscardCreation(db: Ledger, e: Id): Ledger {
    var unlocked := db.(transactions := db.transactions - {Operation(e, LockTx)});
    if e in db.escrows && db.escrows[e].status == E.NotCreated then
      unlocked.(escrows := unlocked.escrows - {e})
    else unlocked
  }

  /** An update of a transaction row; a missing row is not an error. */
  function WithTransaction(db: Ledger, op: Operation, row: Transaction): Ledger {
    if op in db.transactions then db.(transactions := db.transactions[op := row]) else db
  }

  function FinalizeCreation(db: Ledger, e: Id, next: E.Status, hash: Option<Hash>): Result<Ledger, Error> {
    if !E.CanTransition(E.NotCreated, next) then Err(InvalidStateTransition)
    else if e !in db.escrows || db.escrows[e].status != E.NotCreated then Err(LifecycleConflict)
    else
      var status := if next == E.ReconciliationRequired then TxReconciliationRequired
                    else if db.escrows[e].rail != Ckb then Confirmed else Broadcast;
      Ok(WithTransaction(WithEscrowStatus(db, e, next), Operation(e, LockTx), Transaction(status, hash)))
  }

  // ---------------------------------------------------------------- funding

  /** The funded escrow moves its agreement and its milestone along. */
  function FundScope(db: Ledger, scope: Scope): Ledger {
    var a := scope.agreement;
    var moved := if a in db.agreements && db.agreements[a].status == A.FundingRequired
                 then WithAgreementStatus(db, a, A.Funded) else db;
    if scope.milestone.Some? && scope.milestone.value in moved.milestones
       && moved.milestones[scope.milestone.value].status in {M.Pending, M.FundingRequired}
    then WithMilestoneStatus(moved, scope.milestone.value, M.Funded)
    else moved
  }

  function FinalizeFunding(db: Ledger, e: Id, next: E.Status, hash: Option<Hash>): Result<Ledger, Error> {
    if e !in db.escrows then Err(EscrowNotFound)
    else
      var escrow, op := db.escrows[e], Operation(e, LockTx);
      if escrow.status == E.Funded then Ok(db)
      else if next != E.Funded && next != E.FundingDetected then Err(InvalidFundingStatus)
      else if escrow.status != next && !E.CanTransition(escrow.status, next) then Err(InvalidStateTransition)
      else
        var moved := WithEscrowStatus(db, e, next);
        var status := if next == E.Funded then Confirmed else Committed;
        var locked :=
          if op !in db.transactions then moved
          else WithTransaction(moved, op, Transaction(status,
                 if escrow.status != next && hash.Some? then hash else db.transactions[op].hash));
        Ok(if next == E.Funded then FundScope(locked, escrow.scope) else locked)
  }

  // ---------------------------------------------------------------- settlement

  datatype Settlement = ToWorker | ToClient

  function KindOf(op: Settlement): Kind {
    if op == ToWorker then ReleaseTx else RefundTx
  }

  function PendingStatus(op: Settlement): E.Status {
    if op == ToWorker then E.ReleasePending else E.RefundPending
  }

  function TerminalStatus(op: Settlement): E.Status {
    if op == ToWorker then E.Released else E.Refunded
  }

  ghost function ReleaseError(db: Ledger, escrow: Escrow): Option<Error> {
    var scope := escrow.scope;
    if escrow.status != E.Funded then Some(EscrowNotFunded)
    else if scope.agreement !in db.agreements then Some(AgreementNotManaged)
    else
      var status := db.agreements[scope.agreement].status;
      if status == A.Approved
         && (scope.milestone.None?
             || (scope.milestone.value in db.milestones
                 && db.milestones[scope.milestone.value].status == M.Approved)) then None
      else if status == A.Disputed && ReleaseDisputeIn(db, scope) then None
      else if status == A.Released then Some(EscrowAlreadyReleased)
      else if status == A.Refunded then Some(EscrowAlreadyRefunded)
      else Some(EscrowReleaseNotAllowed)
  }

  function RefundError(db: Ledger, escrow: Escrow): Option<Error> {
    var a := escrow.scope.agreement;
    if escrow.status == E.Released || escrow.status == E.ReleasePending then Some(EscrowAlreadyReleased)
    else if escrow.status != E.Funded then Some(EscrowNotFunded)
    else if a in db.agreements && db.agreements[a].status == A.Released then Some(AgreementAlreadyReleased)
    else None
  }

  ghost function SettlementError(db: Ledger, escrow: Escrow, op: Settlement): Option<Error> {
    if op == ToWorker then ReleaseError(db, escrow) else RefundError(db, escrow)
  }

  ghost function ReserveSettlement(db: Ledger, e: Id, op: Settlement): Result<Ledger, Error> {
    if e !in db.escrows then Err(EscrowNotFound)
    else if SettlementError(db, db.escrows[e], op).Some? then Err(SettlementError(db, db.escrows[e], op).value)
    else if Operation(e, KindOf(op)) in db.transactions then Err(UniqueConstraint)
    else
      var pending := WithEscrowStatus(db, e, PendingStatus(op));
      Ok(pending.(transactions := pending.transactions[Operation(e, KindOf(op)) := Transaction(TxPending, None)]))
  }

  function FinalizeFailure(db: Ledger, e: Id, op: Settlement): Result<Ledger, Error> {
    if e !in db.escrows then Err(EscrowNotFound)
    else if db.escrows[e].status != PendingStatus(op) then Err(SettlementStateChanged)
    else
      var key := Operation(e, KindOf(op));
      Ok(WithTransaction(WithEscrowStatus(db, e, E.Failed), key,
           if key in db.transactions then db.transactions[key].(status := TxFailed) else Transaction(TxFailed, None)))
  }

  /** A milestone follows its escrow when its own table lets it. */
  function SettleMilestone(db: Ledger, scope: Scope, op: Settlement): Ledger {
    var to := if op == ToWorker then M.Released else M.Refunded;
    if scope.milestone.Some? && scope.milestone.value in db.milestones
       && M.CanTransition(db.milestones[scope.milestone.value].status, to)
    then WithMilestoneStatus(db, scope.milestone.value, to)
    else db
  }

  /** Where an agreement goes once all its escrows ended the same way. */
  function RollUpTarget(status: A.Status, op: Settlement): Option<A.Status> {
    if op == ToWorker then
      if status == A.Approved || A.CanTransition(status, A.Released) then Some(A.Released) else None
    else
      if A.CanTransition(status, A.Refunded) then Some(A.Refunded) else None
  }

  predicate AllEscrowsAre(db: Ledger, a: Id, status: E.Status) {
    && EscrowsOf(db, a) != {}
    && forall e | e in EscrowsOf(db, a) :: db.escrows[e].status == status
  }

  function RollUp(db: Ledger, a: Id, op: Settlement): Ledger {
    if a in db.agreements && AllEscrowsAre(db, a, TerminalStatus(op))
       && RollUpTarget(db.agreements[a].status, op).Some?
    then WithAgreementStatus(db, a, RollUpTarget(db.agreements[a].status, op).value)
    else db
  }

  function Settle(db: Ledger, scope: Scope, op: Settlement): Ledger {
    RollUp(SettleMilestone(db, scope, op), scope.agreement, op)
  }

  function FinalizeSettlement(db: Ledger, e: Id, op: Settlement, answer: E.Status, hash: Option<Hash>)
    : Result<Ledger, Error>
  {
    if e !in db.escrows then Err(EscrowNotFound)
    else if db.escrows[e].status != PendingStatus(op) then Err(SettlementStateChanged)
    else
      var escrow := db.escrows[e];
      var immediate := escrow.rail != Ckb;
      var next := if answer == E.ReconciliationRequired then E.ReconciliationRequired
                  else if immediate && answer == TerminalStatus(op) then TerminalStatus(op)
                  else PendingStatus(op);
      var status := if next == E.ReconciliationRequired then TxReconciliationRequired
                    else if immediate then Confirmed else Broadcast;
      var written := WithTransaction(WithEscrowStatus(db, e, next), Operation(e, KindOf(op)),
                                     Transaction(status, hash));
      Ok(if next == TerminalStatus(op) then Settle(written, escrow.scope, op) else written)
  }

  // ---------------------------------------------------------------- reconciliation

  /** The database transaction of the reconciler, for a transaction whose hash it looked up before. */
  function Reconcile(db: Ledger, op: Operation, hash: Hash, seen: R.Observation): Result<Ledger, Error> {
    if op !in db.transactions || op.escrow !in db.escrows then Err(ReconciliationIncomplete)
    else if db.transactions[op].hash != Some(hash) then Err(ReconciliationConflict)
    else
      var escrow, row := db.escrows[op.escrow], db.transactions[op];
      match R.Observe(op.kind, R.View(escrow.status, row.status), seen)
      case Refused => Err(InvalidStateTransition)
      case Applied(view, event) =>
        var written := WithTransaction(WithEscrowStatus(db, op.escrow, view.escrow), op,
                                       row.(status := view.transaction));
        Ok(if event == Some(R.EscrowFunded) then FundScope(written, escrow.scope)
           else if event == Some(R.EscrowReleased) then Settle(written, escrow.scope, ToWorker)
           else if event == Some(R.EscrowRefunded) then Settle(written, escrow.scope, ToClient)
           else written)
  }
}
