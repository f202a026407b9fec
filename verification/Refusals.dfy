/** Every refusal tells the truth: what each error code says about the ledger that caused it. */
module Refusals {
  import opened Results
  import opened Lifecycle
  import opened Ledger
  import opened Sums
  import opened Requests
  import opened Invariants
  import A = AgreementMachine
  import M = MilestoneMachine
  import E = EscrowMachine
  import R = Reconciliation

  /** The milestone is there and belongs to the agreement. */
  predicate Belongs(db: Ledger, m: Id, a: Id) {
    m in db.milestones && db.milestones[m].agreement == a
  }

  lemma MilestoneRefusal(db: Ledger, a: Id, m: Id, amount: int, currency: string, order: Option<int>, reference: Option<string>)
    ensures var done := CreateMilestone(db, a, m, amount, currency, order, reference);
            done.Err? ==>
              match done.error
              case AgreementNotFound => a !in db.agreements
              case FundedAgreementImmutable =>
                a in db.agreements && db.agreements[a].status in
                  {A.Funded, A.InProgress, A.ProofSubmitted, A.UnderReview, A.Approved, A.ReleasePending, A.Released,
                   A.Refunded, A.Disputed}
              case InvalidAmount => amount < 1
              case AmountOutOfRange => amount > MAX_SHANNONS
              case MilestoneTotalExceedsAgreement =>
                a in db.agreements && 1 <= amount <= MAX_SHANNONS && Allocated(db, a) + amount > db.agreements[a].amount
              case CurrencyMismatch => a in db.agreements && currency != db.agreements[a].currency
              case MilestoneAlreadyExists =>
                || m in db.milestones
                || (exists n | n in db.milestones :: db.milestones[n].agreement == a
                                                     && db.milestones[n].order == OrderFor(db, a, order))
                || (reference.Some? && exists n | n in db.milestones :: db.milestones[n].reference == reference)
              case _ => false
  {
    hide Allocated, OrderFor;
  }

  lemma SubmissionRefusal(db: Ledger, a: Id, m: Id, p: Id)
    ensures var done := SubmitProof(db, a, m, p);
            done.Err? ==>
              match done.error
              case AgreementNotFound => a !in db.agreements
              case MilestoneNotFound => a in db.agreements && !Belongs(db, m, a)
              case ProofSubmissionNotAllowed =>
                || (a in db.agreements && db.agreements[a].status in {A.Released, A.Refunded, A.Cancelled, A.Expired})
                || (m in db.milestones && db.milestones[m].status in {M.Released, M.Refunded})
              case ProofSubmissionRequiresActiveAgreement =>
                a in db.agreements && db.agreements[a].status !in
                  {A.Funded, A.InProgress, A.Rejected, A.Released, A.Refunded, A.Cancelled, A.Expired}
              case ProofSubmissionRequiresActiveMilestone =>
                m in db.milestones && db.milestones[m].status !in
                  {M.Funded, M.InProgress, M.Rejected, M.Released, M.Refunded}
              case UniqueConstraint => p in db.proofs
              case _ => false
  {
  }

  lemma ReviewRefusal(db: Ledger, p: Id, r: Id, decision: Decision)
    ensures var done := ReviewProof(db, p, r, decision);
            done.Err? ==>
              match done.error
              case ProofNotFound => p !in db.proofs
              case ProofAlreadyReviewed =>
                p in db.proofs && db.proofs[p].status in {Accepted, ProofStatus.Rejected, NeedsChanges, ProofDisputed}
              case AgreementNotFound => p in db.proofs && db.proofs[p].agreement !in db.agreements
              case MilestoneNotFound => p in db.proofs && !Belongs(db, db.proofs[p].milestone, db.proofs[p].agreement)
              case ProofReviewInvalidAgreementState =>
                p in db.proofs && db.proofs[p].agreement in db.agreements
                && db.agreements[db.proofs[p].agreement].status !in {A.ProofSubmitted, A.UnderReview}
              case ProofReviewInvalidMilestoneState =>
                p in db.proofs && db.proofs[p].milestone in db.milestones
                && db.milestones[db.proofs[p].milestone].status !in {M.ProofSubmitted, M.UnderReview}
              case UniqueConstraint => r in db.reviews
              case _ => false
  {
  }

  lemma DisputeRefusal(db: Ledger, a: Id, m: Id, d: Id)
    ensures var done := OpenDispute(db, a, m, d);
            done.Err? ==>
              match done.error
              case AgreementNotFound => a !in db.agreements
              case MilestoneNotFound => a in db.agreements && !Belongs(db, m, a)
              case ActiveDisputeExists => exists x | x in db.disputes :: db.disputes[x] == Dispute(a, m, Open)
              case InvalidStateTransition =>
                a in db.agreements && m in db.milestones
                && (|| db.agreements[a].status !in {A.Funded, A.InProgress, A.ProofSubmitted, A.UnderReview}
                    || db.milestones[m].status !in {M.Funded, M.InProgress, M.ProofSubmitted, M.UnderReview})
              case UniqueConstraint => d in db.disputes
              case _ => false
  {
    if UnresolvedDispute(db, a, m) {
      var x :| x in db.disputes && db.disputes[x].status == Open && db.disputes[x].agreement == a && db.disputes[x].milestone == m;
      assert db.disputes[x] == Dispute(a, m, Open);
    }
  }

  lemma ResolutionRefusal(db: Ledger, d: Id, resolution: Resolution)
    requires OneEscrowPerScope(db)
    ensures var done := ResolveDispute(db, d, resolution);
            done.Err? ==>
              match done.error
              case DisputeNotFound => d !in db.disputes
              case DisputeAlreadyResolved => d in db.disputes && db.disputes[d].status != Open
              case AgreementNotFound => d in db.disputes && db.disputes[d].agreement !in db.agreements
              case MilestoneNotFound => d in db.disputes && !Belongs(db, db.disputes[d].milestone, db.disputes[d].agreement)
              case DisputeFundedEscrowRequired =>
                d in db.disputes && forall e | e in db.escrows
                                               && db.escrows[e].scope == Scope(db.disputes[d].agreement, Some(db.disputes[d].milestone)) ::
                                      db.escrows[e].status != E.Funded
              case AmountOutOfRange =>
                resolution.Split? && (resolution.workerAmount > MAX_SHANNONS || resolution.clientAmount > MAX_SHANNONS)
              case InvalidSettlementSplit =>
                d in db.disputes && resolution.Split?
                && exists e | e in db.escrows ::
                     && db.escrows[e].scope == Scope(db.disputes[d].agreement, Some(db.disputes[d].milestone))
                     && resolution.workerAmount + resolution.clientAmount != db.escrows[e].amount
              case InvalidStateTransition =>
                d in db.disputes && db.disputes[d].agreement in db.agreements && db.disputes[d].milestone in db.milestones
                && (|| db.agreements[db.disputes[d].agreement].status != A.Disputed
                    || db.milestones[db.disputes[d].milestone].status != M.Disputed)
              case _ => false
  {
    if d in db.disputes && resolution.Split? {
      SplitRefusal(db, Scope(db.disputes[d].agreement, Some(db.disputes[d].milestone)), resolution);
    }
    hide SplitError, OneEscrowPerScope;
  }

  lemma SplitRefusal(db: Ledger, scope: Scope, resolution: Resolution)
    requires OneEscrowPerScope(db) && resolution.Split? && scope.milestone.Some?
    ensures var refused := SplitError(db, scope.agreement, scope.milestone.value, resolution);
            match refused
            case None => true
            case Some(DisputeFundedEscrowRequired) =>
              forall e | e in db.escrows && db.escrows[e].scope == scope :: db.escrows[e].status != E.Funded
            case Some(AmountOutOfRange) => resolution.workerAmount > MAX_SHANNONS || resolution.clientAmount > MAX_SHANNONS
            case Some(InvalidSettlementSplit) =>
              exists e | e in db.escrows ::
                db.escrows[e].scope == scope && resolution.workerAmount + resolution.clientAmount != db.escrows[e].amount
            case _ => false
  {
    var active := EscrowsIn(db, scope, E.ACTIVE);
    assert scope == Scope(scope.agreement, Some(scope.milestone.value));
    forall e, f | e in db.escrows && db.escrows[e].scope == scope && f in active ensures e == f {
    }
    forall e | e in db.escrows && db.escrows[e].scope == scope && db.escrows[e].status == E.Funded ensures e in active {
    }
  }

  lemma ReservationRefusal(db: Ledger, e: Id, scope: Scope, amount: int, currency: string, rail: Rail)
    ensures var done := ReserveCreation(db, e, scope, amount, currency, rail);
            var most := if scope.milestone.Some? && scope.milestone.value in db.milestones
                        then db.milestones[scope.milestone.value].amount
                        else if scope.agreement in db.agreements then db.agreements[scope.agreement].amount else 0;
            done.Err? ==>
              match done.error
              case CkbRequiresMilestone => rail == Ckb && scope.milestone == None
              case AgreementNotFound => scope.agreement !in db.agreements
              case MilestoneNotFound => scope.milestone.Some? && !Belongs(db, scope.milestone.value, scope.agreement)
              case CurrencyMismatch => scope.agreement in db.agreements && currency != db.agreements[scope.agreement].currency
              case InvalidAmount => amount < 1
              case AmountOutOfRange => amount > MAX_SHANNONS
              case EscrowAmountMustEqualScope => rail == Ckb && amount != most
              case EscrowAmountExceedsScope => rail != Ckb && amount > most
              case EscrowTerminalStateExists =>
                exists f | f in db.escrows ::
                  db.escrows[f].status in {E.Released, E.Refunded} && db.escrows[f].scope.milestone == scope.milestone
              case ActiveEscrowExists =>
                exists f | f in db.escrows :: db.escrows[f].status !in {E.Released, E.Refunded} && db.escrows[f].scope == scope
              case UniqueConstraint => e in db.escrows || Operation(e, LockTx) in db.transactions
              case _ => false
  {
    SomeEscrow(db, scope);
    hide TerminalEscrows, EscrowsIn;
  }

  lemma SomeEscrow(db: Ledger, scope: Scope)
    ensures TerminalEscrows(db, scope) != {} ==>
              exists f | f in db.escrows ::
                db.escrows[f].status in {E.Released, E.Refunded} && db.escrows[f].scope.milestone == scope.milestone
    ensures EscrowsIn(db, scope, E.ACTIVE) != {} ==>
              exists f | f in db.escrows ::
                db.escrows[f].status !in {E.Released, E.Refunded} && db.escrows[f].scope == scope
  {
    if f :| f in TerminalEscrows(db, scope) {
      assert db.escrows[f].status in {E.Released, E.Refunded} && db.escrows[f].scope.milestone == scope.milestone;
    }
    if f :| f in EscrowsIn(db, scope, E.ACTIVE) {
      assert db.escrows[f].status !in {E.Released, E.Refunded} && db.escrows[f].scope == scope;
    }
  }

  lemma CreationRefusal(db: Ledger, e: Id, next: E.Status, hash: Option<Hash>)
    ensures var created := FinalizeCreation(db, e, next, hash);
            created.Err? ==>
              created.error == if next in {E.AwaitingFunding, E.ReconciliationRequired, E.Failed} then LifecycleConflict
                               else InvalidStateTransition
  {
  }

  lemma FundingRefusal(db: Ledger, e: Id, next: E.Status, hash: Option<Hash>)
    ensures var funded := FinalizeFunding(db, e, next, hash);
            funded.Err? ==>
              match funded.error
              case EscrowNotFound => e !in db.escrows
              case InvalidFundingStatus => e in db.escrows && next !in {E.Funded, E.FundingDetected}
              case InvalidStateTransition => e in db.escrows && next in {E.Funded, E.FundingDetected}
              case _ => false
  {
    hide FundScope;
  }

  lemma FinishRefusal(db: Ledger, e: Id, op: Settlement, answer: E.Status, hash: Option<Hash>)
    ensures var failed, settled := FinalizeFailure(db, e, op), FinalizeSettlement(db, e, op, answer, hash);
            && (failed.Err? ==> failed.error == if e in db.escrows then SettlementStateChanged else EscrowNotFound)
            && (settled.Err? ==> settled.error == if e in db.escrows then SettlementStateChanged else EscrowNotFound)
  {
    hide Settle;
  }

  lemma SettlementRefusal(db: Ledger, e: Id, op: Settlement)
    ensures var done := ReserveSettlement(db, e, op);
            done.Err? ==>
              match done.error
              case EscrowNotFound => e !in db.escrows
              case EscrowNotFunded => e in db.escrows && db.escrows[e].status != E.Funded
              case EscrowAlreadyReleased =>
                e in db.escrows
                && (if op == ToClient then db.escrows[e].status in {E.Released, E.ReleasePending}
                    else db.escrows[e].scope.agreement in db.agreements
                         && db.agreements[db.escrows[e].scope.agreement].status == A.Released)
              case EscrowAlreadyRefunded =>
                op == ToWorker && e in db.escrows && db.escrows[e].scope.agreement in db.agreements
                && db.agreements[db.escrows[e].scope.agreement].status == A.Refunded
              case AgreementAlreadyReleased =>
                op == ToClient && e in db.escrows && db.escrows[e].scope.agreement in db.agreements
                && db.agreements[db.escrows[e].scope.agreement].status == A.Released
              case AgreementNotManaged => op == ToWorker && e in db.escrows && db.escrows[e].scope.agreement !in db.agreements
              case EscrowReleaseNotAllowed =>
                op == ToWorker && e in db.escrows && db.escrows[e].scope.agreement in db.agreements
                && db.agreements[db.escrows[e].scope.agreement].status !in {A.Released, A.Refunded}
              case UniqueConstraint => Operation(e, if op == ToWorker then ReleaseTx else RefundTx) in db.transactions
              case _ => false
  {
    hide ReleaseDisputeIn;
  }

  lemma LookRefusal(db: Ledger, op: Operation, hash: Hash, seen: R.Observation)
    ensures var done := Reconcile(db, op, hash, seen);
            done.Err? ==>
              match done.error
              case ReconciliationIncomplete => op !in db.transactions || op.escrow !in db.escrows
              case ReconciliationConflict => op in db.transactions && db.transactions[op].hash != Some(hash)
              case InvalidStateTransition =>
                op in db.transactions && op.escrow in db.escrows
                && R.Observe(op.kind, R.View(db.escrows[op.escrow].status, db.transactions[op].status), seen).Refused?
              case _ => false
  {
    hide R.Observe, Settle, FundScope;
  }
}
