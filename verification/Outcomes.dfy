/**
 What every request does, told in statuses: when it is accepted, and every row
 it leaves.  Where several escrows meet in one agreement, this is where it is
 said when the agreement follows them.
 */
module Outcomes {
  import opened Results
  import opened Lifecycle
  import opened Ledger
  import opened Sums
  import opened Requests
  import opened Invariants
  import A = AgreementMachine
  import M = MilestoneMachine
  import E = EscrowMachine
  import R = Reconciliation

  // ---------------------------------------------------------------- agreements and milestones

  /** An agreement is accepted as a draft, asks for funding when accepted, and can be cancelled only while it does. */
  lemma AgreementOutcome(db: Ledger, a: Id)
    requires a in db.agreements
    ensures var row := db.agreements[a];
            && AcceptAgreement(db, a)
               == (if row.status == A.Draft then Ok(db.(agreements := db.agreements[a := row.(status := A.Accepted)]))
                   else Err(InvalidStateTransition))
            && MoveAgreement(db, a, A.FundingRequired)
               == (if row.status == A.Accepted
                   then Ok(db.(agreements := db.agreements[a := row.(status := A.FundingRequired, settlement := FundingPending)]))
                   else Err(InvalidStateTransition))
            && MoveAgreement(db, a, A.Cancelled)
               == (if row.status in {A.FundingRequired, A.Expired}
                   then Ok(db.(agreements := db.agreements[a := row.(status := A.Cancelled)]))
                   else Err(InvalidStateTransition))
  {
  }

  /** A milestone is added only to an agreement that is not under way, within its amount, in its currency, and not twice. */
  lemma MilestoneOutcome(db: Ledger, a: Id, m: Id, amount: int, currency: string, order: Option<int>, reference: Option<string>)
    ensures var done := CreateMilestone(db, a, m, amount, currency, order, reference);
            var place := OrderFor(db, a, order);
            && (done.Ok? <==>
                  && a in db.agreements && m !in db.milestones
                  && db.agreements[a].status in {A.Draft, A.PendingAcceptance, A.Accepted, A.FundingRequired, A.Rejected,
                                                 A.Cancelled, A.Expired}
                  && 1 <= amount <= MAX_SHANNONS && Allocated(db, a) + amount <= db.agreements[a].amount
                  && currency == db.agreements[a].currency
                  && (forall n | n in db.milestones && db.milestones[n].agreement == a :: db.milestones[n].order != place)
                  && (reference.Some? ==> forall n | n in db.milestones :: db.milestones[n].reference != reference))
            && (done.Ok? ==> done.value == db.(milestones := db.milestones[m := Milestone(a, amount, place, reference, M.Pending)]))
  {
    NotTaken(db, a, OrderFor(db, a, order), reference);
    hide OrderFor, Allocated, Taken;
    if a in db.agreements {
      NotUnderWay(db.agreements[a].status);
    }
  }

  lemma NotUnderWay(status: A.Status)
    ensures status !in IMMUTABLE <==>
            status in {A.Draft, A.PendingAcceptance, A.Accepted, A.FundingRequired, A.Rejected, A.Cancelled, A.Expired}
  {
  }

  lemma NotTaken(db: Ledger, a: Id, order: int, reference: Option<string>)
    ensures !Taken(db, a, order, reference) <==>
            && (forall n | n in db.milestones && db.milestones[n].agreement == a :: db.milestones[n].order != order)
            && (reference.Some? ==> forall n | n in db.milestones :: db.milestones[n].reference != reference)
  {
  }

  // ---------------------------------------------------------------- work

  function Moved(db: Ledger, a: Id, status: A.Status, m: Id, milestone: M.Status): Ledger
    requires a in db.agreements && m in db.milestones
  {
    db.(agreements := db.agreements[a := db.agreements[a].(status := status)],
        milestones := db.milestones[m := db.milestones[m].(status := milestone)])
  }

  /** Work is handed in on a funded milestone that nobody has handed in already, or whose proof came back. */
  lemma SubmissionOutcome(db: Ledger, a: Id, m: Id, p: Id)
    ensures var done := SubmitProof(db, a, m, p);
            && (done.Ok? <==>
                  && a in db.agreements && m in db.milestones && db.milestones[m].agreement == a && p !in db.proofs
                  && db.agreements[a].status in {A.Funded, A.InProgress, A.Rejected}
                  && db.milestones[m].status in {M.Funded, M.InProgress, M.Rejected})
            && (done.Ok? ==>
                  done.value == Moved(db, a, A.ProofSubmitted, m, M.ProofSubmitted)
                                .(proofs := db.proofs[p := Proof(a, m, Submitted)]))
  {
  }

  /** A verdict approves agreement and milestone, rejects both, or sends both back to work, and the proof says which. */
  lemma ReviewOutcome(db: Ledger, p: Id, r: Id, decision: Decision)
    ensures var done := ReviewProof(db, p, r, decision);
            && (done.Ok? <==>
                  && p in db.proofs && r !in db.reviews && db.proofs[p].status in {Submitted, ProofStatus.UnderReview}
                  && db.proofs[p].agreement in db.agreements && db.proofs[p].milestone in db.milestones
                  && db.milestones[db.proofs[p].milestone].agreement == db.proofs[p].agreement
                  && db.agreements[db.proofs[p].agreement].status in {A.ProofSubmitted, A.UnderReview}
                  && db.milestones[db.proofs[p].milestone].status in {M.ProofSubmitted, M.UnderReview})
            && (done.Ok? ==>
                  var proof := db.proofs[p];
                  var judged := match decision
                                case ApproveProof => Moved(db, proof.agreement, A.Approved, proof.milestone, M.Approved)
                                case RejectProof => Moved(db, proof.agreement, A.Rejected, proof.milestone, M.Rejected)
                                case RequestChanges => Moved(db, proof.agreement, A.InProgress, proof.milestone, M.InProgress);
                  var status := match decision
                                case ApproveProof => Accepted
                                case RejectProof => ProofStatus.Rejected
                                case RequestChanges => NeedsChanges;
                  done.value == judged.(proofs := db.proofs[p := proof.(status := status)],
                                        reviews := db.reviews[r := Review(p, decision)]))
  {
  }

  /** Work in progress can be disputed, once at a time. */
  lemma DisputeOutcome(db: Ledger, a: Id, m: Id, d: Id)
    ensures var done := OpenDispute(db, a, m, d);
            && (done.Ok? <==>
                  && a in db.agreements && m in db.milestones && db.milestones[m].agreement == a && d !in db.disputes
                  && db.agreements[a].status in {A.Funded, A.InProgress, A.ProofSubmitted, A.UnderReview}
                  && db.milestones[m].status in {M.Funded, M.InProgress, M.ProofSubmitted, M.UnderReview}
                  && !exists x | x in db.disputes :: db.disputes[x] == Dispute(a, m, Open))
            && (done.Ok? ==>
                  done.value == Moved(db, a, A.Disputed, m, M.Disputed).(disputes := db.disputes[d := Dispute(a, m, Open)]))
  {
    if UnresolvedDispute(db, a, m) {
      var x :| x in db.disputes && db.disputes[x].status == Open && db.disputes[x].agreement == a && db.disputes[x].milestone == m;
      assert db.disputes[x] == Dispute(a, m, Open);
    }
    hide SettlementFor;
  }

  /** The escrow of a milestone is funded, and these shares divide it. */
  ghost predicate Divides(db: Ledger, a: Id, m: Id, workerAmount: nat, clientAmount: nat) {
    exists e | e in db.escrows ::
      && db.escrows[e].scope == Scope(a, Some(m)) && db.escrows[e].status == E.Funded
      && workerAmount + clientAmount == db.escrows[e].amount
  }

  /** A resolution to release approves agreement and milestone; any other leaves them disputed. */
  lemma ResolutionOutcome(db: Ledger, d: Id, resolution: Resolution)
    requires OneEscrowPerScope(db) && (resolution.Split? ==> resolution.workerAmount <= MAX_SHANNONS && resolution.clientAmount <= MAX_SHANNONS)
    ensures var done := ResolveDispute(db, d, resolution);
            && (done.Ok? <==>
                  && d in db.disputes && db.disputes[d].status == Open
                  && db.disputes[d].agreement in db.agreements && db.disputes[d].milestone in db.milestones
                  && db.milestones[db.disputes[d].milestone].agreement == db.disputes[d].agreement
                  && db.agreements[db.disputes[d].agreement].status == A.Disputed
                  && db.milestones[db.disputes[d].milestone].status == M.Disputed
                  && (resolution.Split? ==>
                        Divides(db, db.disputes[d].agreement, db.disputes[d].milestone, resolution.workerAmount,
                                resolution.clientAmount)))
            && (done.Ok? ==>
                  var dispute := db.disputes[d];
                  var closed := db.(disputes := db.disputes[d := dispute.(status := Resolved(resolution))]);
                  done.value == if resolution == Release
                                then Moved(closed, dispute.agreement, A.Approved, dispute.milestone, M.Approved) else closed)
  {
    if d in db.disputes && resolution.Split? {
      SplitOutcome(db, db.disputes[d].agreement, db.disputes[d].milestone, resolution);
    }
    hide SplitError, Divides, OneEscrowPerScope;
  }

  lemma SplitOutcome(db: Ledger, a: Id, m: Id, resolution: Resolution)
    requires OneEscrowPerScope(db) && resolution.Split?
    requires resolution.workerAmount <= MAX_SHANNONS && resolution.clientAmount <= MAX_SHANNONS
    ensures SplitError(db, a, m, resolution) == None
            <==> Divides(db, a, m, resolution.workerAmount, resolution.clientAmount)
  {
    var active := EscrowsIn(db, Scope(a, Some(m)), E.ACTIVE);
    if e :| e in db.escrows && db.escrows[e].scope == Scope(a, Some(m)) && e in active {
      forall f | f in active ensures f == e {
        assert db.escrows[f].scope == db.escrows[e].scope;
      }
    }
    forall e | e in db.escrows && db.escrows[e].scope == Scope(a, Some(m)) && db.escrows[e].status == E.Funded
      ensures e in active
    {
    }
  }

  // ---------------------------------------------------------------- creating and funding escrows

  /** A row that is not there is not updated, and that is no error. */
  function Updated(rows: map<Operation, Transaction>, op: Operation, row: Transaction): map<Operation, Transaction> {
    if op in rows then rows[op := row] else rows
  }

  /** An escrow is reserved for a scope without one, for at most its amount, and on the chain for a milestone's exact amount. */
  lemma ReservationOutcome(db: Ledger, e: Id, scope: Scope, amount: int, currency: string, rail: Rail)
    requires References(db)
    ensures var done := ReserveCreation(db, e, scope, amount, currency, rail);
            && (done.Ok? <==>
                  && scope.agreement in db.agreements && currency == db.agreements[scope.agreement].currency
                  && (scope.milestone.Some? ==>
                        scope.milestone.value in db.milestones
                        && db.milestones[scope.milestone.value].agreement == scope.agreement)
                  && 1 <= amount <= MAX_SHANNONS
                  && (var most := if scope.milestone.Some? then db.milestones[scope.milestone.value].amount
                                  else db.agreements[scope.agreement].amount;
                      amount <= most && (rail == Ckb ==> scope.milestone.Some? && amount == most))
                  && (forall f | f in db.escrows :: db.escrows[f].scope != scope)
                  && e !in db.escrows && Operation(e, LockTx) !in db.transactions)
            && (done.Ok? ==>
                  done.value == db.(escrows := db.escrows[e := Escrow(scope, amount, currency, rail, E.NotCreated)],
                                    transactions := db.transactions[Operation(e, LockTx) := Transaction(TxPending, None)]))
  {
    if ScopeError(db, scope) == None {
      ScopeIsFree(db, scope);
    }
    hide TerminalEscrows, EscrowsIn, References;
  }

  lemma ScopeIsFree(db: Ledger, scope: Scope)
    requires References(db)
    requires scope.milestone.Some? ==> MilestoneOf(db, scope.milestone.value, scope.agreement)
    ensures TerminalEscrows(db, scope) == {} && EscrowsIn(db, scope, E.ACTIVE) == {}
            <==> forall f | f in db.escrows :: db.escrows[f].scope != scope
  {
    forall f | f in db.escrows ensures KnownScope(db, db.escrows[f].scope) {
    }
    if f :| f in TerminalEscrows(db, scope) {
      assert KnownScope(db, db.escrows[f].scope);
      assert db.escrows[f].scope == Scope(scope.agreement, scope.milestone);
    }
    if f :| f in EscrowsIn(db, scope, E.ACTIVE) {
      assert db.escrows[f].scope == scope;
    }
    if f :| f in db.escrows && db.escrows[f].scope == scope {
      LookupsCoverScope(db, scope, f);
    }
  }

  /** An answer of the adapter moves the escrow out of not created, and says what its lock transaction is. */
  lemma CreationOutcome(db: Ledger, e: Id, next: E.Status, hash: Option<Hash>)
    ensures var done := FinalizeCreation(db, e, next, hash);
            && (done.Ok? <==>
                  && e in db.escrows && db.escrows[e].status == E.NotCreated
                  && next in {E.AwaitingFunding, E.ReconciliationRequired, E.Failed})
            && (done.Ok? ==>
                  var status := if next == E.ReconciliationRequired then TxReconciliationRequired
                                else if db.escrows[e].rail == Ckb then Broadcast else Confirmed;
                  done.value == db.(escrows := db.escrows[e := db.escrows[e].(status := next)],
                                    transactions := Updated(db.transactions, Operation(e, LockTx), Transaction(status, hash))))
  {
  }

  /** A reservation that the adapter refused leaves nothing, unless the escrow has moved on. */
  lemma DiscardOutcome(db: Ledger, e: Id, scope: Scope, amount: int, currency: string, rail: Rail)
    requires ReserveCreation(db, e, scope, amount, currency, rail).Ok?
    ensures DiscardCreation(ReserveCreation(db, e, scope, amount, currency, rail).value, e) == db
    ensures forall after: Ledger | e in after.escrows && after.escrows[e].status != E.NotCreated ::
              DiscardCreation(after, e).escrows == after.escrows
  {
    var reserved := ReserveCreation(db, e, scope, amount, currency, rail).value;
    hide ScopeError, AmountError, TerminalEscrows, EscrowsIn;
    assert reserved.transactions - {Operation(e, LockTx)} == db.transactions;
    assert reserved.escrows - {e} == db.escrows;
  }

  /** Funding moves an agreement that asks for it and a milestone that waits for it, and no other row. */
  ghost predicate ScopeFunded(db: Ledger, after: Ledger, scope: Scope) {
    && after.agreements.Keys == db.agreements.Keys && after.milestones.Keys == db.milestones.Keys
    && (forall a | a in db.agreements ::
          after.agreements[a] == if a == scope.agreement && db.agreements[a].status == A.FundingRequired
                                 then db.agreements[a].(status := A.Funded, settlement := FundsHeld)
                                 else db.agreements[a])
    && (forall m | m in db.milestones ::
          after.milestones[m] == if Some(m) == scope.milestone && db.milestones[m].status in {M.Pending, M.FundingRequired}
                                 then db.milestones[m].(status := M.Funded)
                                 else db.milestones[m])
  }

  /** Everything but the rows of agreements, milestones, escrows and transactions. */
  ghost predicate SamePapers(db: Ledger, after: Ledger) {
    after.proofs == db.proofs && after.reviews == db.reviews && after.disputes == db.disputes
  }

  lemma FundScopeFunds(db: Ledger, scope: Scope)
    ensures var after := FundScope(db, scope);
            ScopeFunded(db, after, scope) && SamePapers(db, after)
            && after.escrows == db.escrows && after.transactions == db.transactions
  {
    FundsInTwo(db, scope);
    AgreementFundedRows(db, scope.agreement);
    MilestoneFundedRows(AgreementFunded(db, scope.agreement), scope);
    hide FundScope, AgreementFunded, MilestoneFunded;
  }

  function AgreementFunded(db: Ledger, a: Id): Ledger {
    if a in db.agreements && db.agreements[a].status == A.FundingRequired then WithAgreementStatus(db, a, A.Funded) else db
  }

  function MilestoneFunded(db: Ledger, scope: Scope): Ledger {
    if scope.milestone.Some? && scope.milestone.value in db.milestones
       && db.milestones[scope.milestone.value].status in {M.Pending, M.FundingRequired}
    then WithMilestoneStatus(db, scope.milestone.value, M.Funded)
    else db
  }

  lemma FundsInTwo(db: Ledger, scope: Scope)
    ensures FundScope(db, scope) == MilestoneFunded(AgreementFunded(db, scope.agreement), scope)
  {
    hide WithAgreementStatus, WithMilestoneStatus;
  }

  lemma AgreementFundedRows(db: Ledger, a: Id)
    ensures var after := AgreementFunded(db, a);
            && after == db.(agreements := after.agreements) && after.agreements.Keys == db.agreements.Keys
            && forall b | b in db.agreements ::
                 after.agreements[b] == if b == a && db.agreements[b].status == A.FundingRequired
                                        then db.agreements[b].(status := A.Funded, settlement := FundsHeld)
                                        else db.agreements[b]
  {
  }

  lemma MilestoneFundedRows(db: Ledger, scope: Scope)
    ensures var after := MilestoneFunded(db, scope);
            && after == db.(milestones := after.milestones) && after.milestones.Keys == db.milestones.Keys
            && forall m | m in db.milestones ::
                 after.milestones[m] == if Some(m) == scope.milestone && db.milestones[m].status in {M.Pending, M.FundingRequired}
                                        then db.milestones[m].(status := M.Funded)
                                        else db.milestones[m]
  {
  }

  /** The adapter's report funds the escrow, or says that the funding is on its way; what is funded stays as it is. */
  lemma FundingOutcome(db: Ledger, e: Id, next: E.Status, hash: Option<Hash>)
    ensures var done, op := FinalizeFunding(db, e, next, hash), Operation(e, LockTx);
            && (done.Ok? <==>
                  e in db.escrows
                  && (|| db.escrows[e].status == E.Funded
                      || (next == E.Funded && db.escrows[e].status in
                            {E.AwaitingFunding, E.FundingDetected, E.ReconciliationRequired, E.Failed})
                      || (next == E.FundingDetected && db.escrows[e].status in
                            {E.AwaitingFunding, E.FundingDetected, E.ReconciliationRequired})))
            && (done.Ok? && db.escrows[e].status == E.Funded ==> done.value == db)
            && (done.Ok? && db.escrows[e].status != E.Funded ==>
                  var after := done.value;
                  var known := if (hash.Some? && db.escrows[e].status != next) || op !in db.transactions then hash
                               else db.transactions[op].hash;
                  && SamePapers(db, after) && after.escrows == db.escrows[e := db.escrows[e].(status := next)]
                  && after.transactions
                     == Updated(db.transactions, op, Transaction(if next == E.Funded then Confirmed else Committed, known))
                  && (if next == E.Funded then ScopeFunded(db, after, db.escrows[e].scope)
                      else after.agreements == db.agreements && after.milestones == db.milestones))
  {
    FundingReports(db, e, next, hash);
    if e in db.escrows {
      var reported, scope := Reported(db, e, next, hash), db.escrows[e].scope;
      FundScopeFunds(reported, scope);
      SameScope(db, reported, FundScope(reported, scope), scope);
    }
    hide FundScope, ScopeFunded, FinalizeFunding;
  }

  /** The escrow and its lock transaction, as the report leaves them. */
  function Reported(db: Ledger, e: Id, next: E.Status, hash: Option<Hash>): Ledger
    requires e in db.escrows
  {
    var op := Operation(e, LockTx);
    var known := if (hash.Some? && db.escrows[e].status != next) || op !in db.transactions then hash
                 else db.transactions[op].hash;
    db.(escrows := db.escrows[e := db.escrows[e].(status := next)],
        transactions := Updated(db.transactions, op, Transaction(if next == E.Funded then Confirmed else Committed, known)))
  }

  lemma FundingReports(db: Ledger, e: Id, next: E.Status, hash: Option<Hash>)
    ensures var done := FinalizeFunding(db, e, next, hash);
            && (done.Ok? <==>
                  e in db.escrows
                  && (|| db.escrows[e].status == E.Funded
                      || (next == E.Funded && db.escrows[e].status in
                            {E.AwaitingFunding, E.FundingDetected, E.ReconciliationRequired, E.Failed})
                      || (next == E.FundingDetected && db.escrows[e].status in
                            {E.AwaitingFunding, E.FundingDetected, E.ReconciliationRequired})))
            && (done.Ok? ==>
                  done.value == if db.escrows[e].status == E.Funded then db
                                else if next == E.Funded then FundScope(Reported(db, e, next, hash), db.escrows[e].scope)
                                else Reported(db, e, next, hash))
  {
    hide FundScope;
  }

  // ---------------------------------------------------------------- settling escrows

  /** A funded escrow is released once its work was approved, or a dispute about it was resolved that way. */
  lemma ReleaseOutcome(db: Ledger, e: Id)
    ensures var done := ReserveSettlement(db, e, ToWorker);
            && (done.Ok? <==>
                  && e in db.escrows && db.escrows[e].status == E.Funded && Operation(e, ReleaseTx) !in db.transactions
                  && db.escrows[e].scope.agreement in db.agreements
                  && (var scope := db.escrows[e].scope;
                      || (db.agreements[scope.agreement].status == A.Approved
                          && (scope.milestone.Some? ==>
                                scope.milestone.value in db.milestones
                                && db.milestones[scope.milestone.value].status == M.Approved))
                      || (db.agreements[scope.agreement].status == A.Disputed
                          && exists d | d in db.disputes ::
                               && db.disputes[d].status == Resolved(Release) && db.disputes[d].agreement == scope.agreement
                               && (scope.milestone.Some? ==> db.disputes[d].milestone == scope.milestone.value))))
            && (done.Ok? ==>
                  done.value == db.(escrows := db.escrows[e := db.escrows[e].(status := E.ReleasePending)],
                                    transactions := db.transactions[Operation(e, ReleaseTx) := Transaction(TxPending, None)]))
  {
    if e in db.escrows {
      ReleaseDisputes(db, db.escrows[e].scope);
    }
    hide ReleaseDisputeIn;
  }

  lemma ReleaseDisputes(db: Ledger, scope: Scope)
    ensures ReleaseDisputeIn(db, scope) <==>
            exists d | d in db.disputes ::
              && db.disputes[d].status == Resolved(Release) && db.disputes[d].agreement == scope.agreement
              && (scope.milestone.Some? ==> db.disputes[d].milestone == scope.milestone.value)
  {
    if d :| d in db.disputes && ResolvesToRelease(db.disputes[d], scope) {
      assert db.disputes[d].status == Resolved(Release);
    }
    if d :| d in db.disputes && db.disputes[d].status == Resolved(Release) && db.disputes[d].agreement == scope.agreement
            && (scope.milestone.Some? ==> db.disputes[d].milestone == scope.milestone.value) {
      assert ResolvesToRelease(db.disputes[d], scope);
    }
  }

  /** A funded escrow is refunded on request, once, unless its agreement was released. */
  lemma RefundOutcome(db: Ledger, e: Id)
    ensures var done := ReserveSettlement(db, e, ToClient);
            && (done.Ok? <==>
                  && e in db.escrows && db.escrows[e].status == E.Funded && Operation(e, RefundTx) !in db.transactions
                  && (db.escrows[e].scope.agreement in db.agreements ==>
                        db.agreements[db.escrows[e].scope.agreement].status != A.Released))
            && (done.Ok? ==>
                  done.value == db.(escrows := db.escrows[e := db.escrows[e].(status := E.RefundPending)],
                                    transactions := db.transactions[Operation(e, RefundTx) := Transaction(TxPending, None)]))
  {
  }

  /** A settlement that failed marks the escrow and the transaction, and nothing else. */
  lemma FailureOutcome(db: Ledger, e: Id, op: Settlement)
    ensures var done, key := FinalizeFailure(db, e, op), Operation(e, if op == ToWorker then ReleaseTx else RefundTx);
            && (done.Ok? <==>
                  e in db.escrows && db.escrows[e].status == if op == ToWorker then E.ReleasePending else E.RefundPending)
            && (done.Ok? ==>
                  done.value == db.(escrows := db.escrows[e := db.escrows[e].(status := E.Failed)],
                                    transactions := if key in db.transactions
                                                    then db.transactions[key := db.transactions[key].(status := TxFailed)]
                                                    else db.transactions))
  {
  }

  /** Every escrow of the agreement ended this way. */
  ghost predicate AllEnded(db: Ledger, a: Id, status: E.Status) {
    forall f | f in db.escrows && db.escrows[f].scope.agreement == a :: db.escrows[f].status == status
  }

  /**
   A released escrow takes its milestone along, and its agreement once every
   escrow of the agreement is released: to released with the payout confirmed,
   from approved, release pending and disputed; nothing else moves.
   */
  ghost predicate ScopeReleased(db: Ledger, after: Ledger, scope: Scope) {
    && after.agreements.Keys == db.agreements.Keys && after.milestones.Keys == db.milestones.Keys
    && (forall m | m in db.milestones ::
          after.milestones[m] == if Some(m) == scope.milestone && db.milestones[m].status in {M.Approved, M.Disputed}
                                 then db.milestones[m].(status := M.Released)
                                 else db.milestones[m])
    && (forall a | a in db.agreements ::
          after.agreements[a] == if a == scope.agreement && AllEnded(after, a, E.Released)
                                    && db.agreements[a].status in {A.Approved, A.ReleasePending, A.Disputed}
                                 then db.agreements[a].(status := A.Released, settlement := PayoutConfirmed)
                                 else db.agreements[a])
  }

  /** The same for a refund: from funded and disputed to refunded with the refund confirmed. */
  ghost predicate ScopeRefunded(db: Ledger, after: Ledger, scope: Scope) {
    && after.agreements.Keys == db.agreements.Keys && after.milestones.Keys == db.milestones.Keys
    && (forall m | m in db.milestones ::
          after.milestones[m] == if Some(m) == scope.milestone
                                    && db.milestones[m].status in {M.FundingRequired, M.Funded, M.Disputed}
                                 then db.milestones[m].(status := M.Refunded)
                                 else db.milestones[m])
    && (forall a | a in db.agreements ::
          after.agreements[a] == if a == scope.agreement && AllEnded(after, a, E.Refunded)
                                    && db.agreements[a].status in {A.Funded, A.Disputed}
                                 then db.agreements[a].(status := A.Refunded, settlement := RefundConfirmed)
                                 else db.agreements[a])
  }

  lemma MilestoneFollows(db: Ledger, scope: Scope, op: Settlement)
    ensures var after := SettleMilestone(db, scope, op);
            && after == db.(milestones := after.milestones) && after.milestones.Keys == db.milestones.Keys
            && forall m | m in db.milestones ::
                 after.milestones[m] ==
                 if Some(m) == scope.milestone
                    && db.milestones[m].status in (if op == ToWorker then {M.Approved, M.Disputed}
                                                   else {M.FundingRequired, M.Funded, M.Disputed})
                 then db.milestones[m].(status := if op == ToWorker then M.Released else M.Refunded)
                 else db.milestones[m]
  {
    if scope.milestone.Some? && scope.milestone.value in db.milestones {
      MilestoneMay(db.milestones[scope.milestone.value].status);
    }
    hide M.CanTransition;
  }

  lemma MilestoneMay(status: M.Status)
    ensures M.CanTransition(status, M.Released) <==> status in {M.Approved, M.Disputed}
    ensures M.CanTransition(status, M.Refunded) <==> status in {M.FundingRequired, M.Funded, M.Disputed}
  {
  }

  lemma AgreementMay(status: A.Status)
    ensures RollUpTarget(status, ToWorker)
            == if status in {A.Approved, A.ReleasePending, A.Disputed} then Some(A.Released) else None
    ensures RollUpTarget(status, ToClient) == if status in {A.Funded, A.Disputed} then Some(A.Refunded) else None
  {
  }

  lemma AgreementFollows(db: Ledger, a: Id, op: Settlement)
    requires EscrowsOf(db, a) != {}
    ensures var after, terminal := RollUp(db, a, op), if op == ToWorker then E.Released else E.Refunded;
            && after == db.(agreements := after.agreements) && after.agreements.Keys == db.agreements.Keys
            && forall b | b in db.agreements ::
                 after.agreements[b] ==
                 if b == a && AllEnded(db, a, terminal)
                    && db.agreements[b].status in (if op == ToWorker then {A.Approved, A.ReleasePending, A.Disputed}
                                                   else {A.Funded, A.Disputed})
                 then (if op == ToWorker then db.agreements[b].(status := A.Released, settlement := PayoutConfirmed)
                       else db.agreements[b].(status := A.Refunded, settlement := RefundConfirmed))
                 else db.agreements[b]
  {
    AllAreEnded(db, a, TerminalStatus(op));
    hide AllEscrowsAre, AllEnded, RollUpTarget, EscrowsOf, WithAgreementStatus;
    if a in db.agreements {
      AgreementMay(db.agreements[a].status);
      EndedRow(db, a, op);
    }
  }

  lemma EndedRow(db: Ledger, a: Id, op: Settlement)
    requires a in db.agreements
    ensures WithAgreementStatus(db, a, if op == ToWorker then A.Released else A.Refunded)
            == db.(agreements := db.agreements[a :=
                     if op == ToWorker then db.agreements[a].(status := A.Released, settlement := PayoutConfirmed)
                     else db.agreements[a].(status := A.Refunded, settlement := RefundConfirmed)])
  {
  }

  lemma AllAreEnded(db: Ledger, a: Id, status: E.Status)
    requires EscrowsOf(db, a) != {}
    ensures AllEscrowsAre(db, a, status) <==> AllEnded(db, a, status)
  {
    if AllEscrowsAre(db, a, status) {
      forall f | f in db.escrows && db.escrows[f].scope.agreement == a ensures db.escrows[f].status == status {
        assert f in EscrowsOf(db, a);
      }
    }
  }

  lemma SettleFollows(db: Ledger, scope: Scope, op: Settlement)
    requires EscrowsOf(db, scope.agreement) != {}
    ensures var after := Settle(db, scope, op);
            && (if op == ToWorker then ScopeReleased(db, after, scope) else ScopeRefunded(db, after, scope))
            && SamePapers(db, after) && after.escrows == db.escrows && after.transactions == db.transactions
  {
    hide SettleMilestone, RollUp, ScopeReleased, ScopeRefunded;
    MilestoneFollows(db, scope, op);
    var moved, after := SettleMilestone(db, scope, op), Settle(db, scope, op);
    assert EscrowsOf(moved, scope.agreement) == EscrowsOf(db, scope.agreement);
    AgreementFollows(moved, scope.agreement, op);
    hide EscrowsOf, Settle;
    SameEnds(moved, after, scope.agreement);
    if op == ToWorker {
      ReleaseFollows(db, moved, after, scope);
    } else {
      RefundFollows(db, moved, after, scope);
    }
  }

  lemma SameEnds(db: Ledger, after: Ledger, a: Id)
    requires after.escrows == db.escrows
    ensures forall status :: AllEnded(after, a, status) <==> AllEnded(db, a, status)
  {
  }

  lemma ReleaseFollows(db: Ledger, moved: Ledger, after: Ledger, scope: Scope)
    requires moved == db.(milestones := moved.milestones) && moved.milestones.Keys == db.milestones.Keys
    requires after == moved.(agreements := after.agreements) && after.agreements.Keys == db.agreements.Keys
    requires forall m | m in db.milestones ::
               moved.milestones[m] ==
               if Some(m) == scope.milestone && db.milestones[m].status in {M.Approved, M.Disputed}
               then db.milestones[m].(status := M.Released) else db.milestones[m]
    requires forall b | b in db.agreements ::
               after.agreements[b] ==
               if b == scope.agreement && AllEnded(after, b, E.Released)
                  && db.agreements[b].status in {A.Approved, A.ReleasePending, A.Disputed}
               then db.agreements[b].(status := A.Released, settlement := PayoutConfirmed) else db.agreements[b]
    ensures ScopeReleased(db, after, scope)
  {
    hide AllEnded;
  }

  lemma RefundFollows(db: Ledger, moved: Ledger, after: Ledger, scope: Scope)
    requires moved == db.(milestones := moved.milestones) && moved.milestones.Keys == db.milestones.Keys
    requires after == moved.(agreements := after.agreements) && after.agreements.Keys == db.agreements.Keys
    requires forall m | m in db.milestones ::
               moved.milestones[m] ==
               if Some(m) == scope.milestone && db.milestones[m].status in {M.FundingRequired, M.Funded, M.Disputed}
               then db.milestones[m].(status := M.Refunded) else db.milestones[m]
    requires forall b | b in db.agreements ::
               after.agreements[b] ==
               if b == scope.agreement && AllEnded(after, b, E.Refunded) && db.agreements[b].status in {A.Funded, A.Disputed}
               then db.agreements[b].(status := A.Refunded, settlement := RefundConfirmed) else db.agreements[b]
    ensures ScopeRefunded(db, after, scope)
  {
    hide AllEnded;
  }

  /**
   Finishing a settlement: off the chain the adapter's word ends it at once, and
   milestone and agreement follow; on the chain it is broadcast and waits; an
   unclear answer asks for reconciliation.
   */
  lemma SettlementOutcome(db: Ledger, e: Id, op: Settlement, answer: E.Status, hash: Option<Hash>)
    ensures var done := FinalizeSettlement(db, e, op, answer, hash);
            var pending, terminal := if op == ToWorker then E.ReleasePending else E.RefundPending,
                                     if op == ToWorker then E.Released else E.Refunded;
            && (done.Ok? <==> e in db.escrows && db.escrows[e].status == pending)
            && (done.Ok? ==>
                  var after, key := done.value, Operation(e, if op == ToWorker then ReleaseTx else RefundTx);
                  var next := if answer == E.ReconciliationRequired then answer
                              else if db.escrows[e].rail != Ckb && answer == terminal then terminal else pending;
                  var status := if answer == E.ReconciliationRequired then TxReconciliationRequired
                                else if db.escrows[e].rail == Ckb then Broadcast else Confirmed;
                  && SamePapers(db, after) && after.escrows == db.escrows[e := db.escrows[e].(status := next)]
                  && after.transactions == Updated(db.transactions, key, Transaction(status, hash))
                  && (if next != terminal then after.agreements == db.agreements && after.milestones == db.milestones
                      else if op == ToWorker then ScopeReleased(db, after, db.escrows[e].scope)
                      else ScopeRefunded(db, after, db.escrows[e].scope)))
  {
    hide Settle, ScopeReleased, ScopeRefunded;
    if e in db.escrows && db.escrows[e].status == PendingStatus(op) {
      var escrow, answered := db.escrows[e], Answered(db, e, op, answer, hash);
      FinalizeAnswers(db, e, op, answer, hash);
      hide FinalizeSettlement;
      assert e in EscrowsOf(answered, escrow.scope.agreement);
      SettleFollows(answered, escrow.scope, op);
      SameScope(db, answered, Settle(answered, escrow.scope, op), escrow.scope);
    }
  }

  /** The escrow and its transaction, as the adapter's answer leaves them. */
  function Answered(db: Ledger, e: Id, op: Settlement, answer: E.Status, hash: Option<Hash>): Ledger
    requires e in db.escrows
  {
    var immediate := db.escrows[e].rail != Ckb;
    var next := if answer == E.ReconciliationRequired then answer
                else if immediate && answer == TerminalStatus(op) then answer else PendingStatus(op);
    var status := if answer == E.ReconciliationRequired then TxReconciliationRequired
                  else if immediate then Confirmed else Broadcast;
    db.(escrows := db.escrows[e := db.escrows[e].(status := next)],
        transactions := Updated(db.transactions, Operation(e, KindOf(op)), Transaction(status, hash)))
  }

  lemma FinalizeAnswers(db: Ledger, e: Id, op: Settlement, answer: E.Status, hash: Option<Hash>)
    requires e in db.escrows && db.escrows[e].status == PendingStatus(op)
    ensures var answered := Answered(db, e, op, answer, hash);
            FinalizeSettlement(db, e, op, answer, hash)
            == Ok(if answered.escrows[e].status == TerminalStatus(op) then Settle(answered, db.escrows[e].scope, op) else answered)
  {
    hide Settle;
  }

  lemma SameScope(db: Ledger, written: Ledger, after: Ledger, scope: Scope)
    requires written.agreements == db.agreements && written.milestones == db.milestones
    ensures ScopeReleased(db, after, scope) <==> ScopeReleased(written, after, scope)
    ensures ScopeRefunded(db, after, scope) <==> ScopeRefunded(written, after, scope)
    ensures ScopeFunded(db, after, scope) <==> ScopeFunded(written, after, scope)
  {
    hide AllEnded;
  }

  // ---------------------------------------------------------------- looks at the chain

  /** The rows a look writes, when it is not refused: the escrow's status and the transaction's. */
  function Looked(db: Ledger, op: Operation, view: R.View): Ledger
    requires op in db.transactions && op.escrow in db.escrows
  {
    db.(escrows := db.escrows[op.escrow := db.escrows[op.escrow].(status := view.escrow)],
        transactions := db.transactions[op := db.transactions[op].(status := view.transaction)])
  }

  lemma ReconcileLooks(db: Ledger, op: Operation, hash: Hash, seen: R.Observation)
    requires op in db.transactions && op.escrow in db.escrows && db.transactions[op].hash == Some(hash)
    ensures var outcome := R.Observe(op.kind, R.View(db.escrows[op.escrow].status, db.transactions[op].status), seen);
            var scope := db.escrows[op.escrow].scope;
            Reconcile(db, op, hash, seen)
            == match outcome
               case Refused => Err(InvalidStateTransition)
               case Applied(view, event) =>
                 Ok(match event
                    case Some(EscrowFunded) => FundScope(Looked(db, op, view), scope)
                    case Some(EscrowReleased) => Settle(Looked(db, op, view), scope, ToWorker)
                    case Some(EscrowRefunded) => Settle(Looked(db, op, view), scope, ToClient)
                    case _ => Looked(db, op, view))
  {
    hide R.Observe, FundScope, Settle;
  }

  /** Whatever was seen: an escrow that becomes funded, released or refunded says so, and nothing else does. */
  lemma EventsTellStatus(kind: Kind, view: R.View, seen: R.Observation)
    ensures var outcome := R.Observe(kind, view, seen);
            outcome.Applied? ==>
              var before, after := view.escrow, outcome.view.escrow;
              && (outcome.event == Some(R.EscrowFunded) <==> before != E.Funded && after == E.Funded)
              && (outcome.event == Some(R.EscrowReleased) <==> before != E.Released && after == E.Released)
              && (outcome.event == Some(R.EscrowRefunded) <==> before != E.Refunded && after == E.Refunded)
  {
  }

  /**
   A look at the chain changes the escrow and the transaction looked at as the
   observation says, and whenever the escrow becomes funded, released or
   refunded by it, milestone and agreement follow; otherwise they stay.
   */
  lemma LookOutcome(db: Ledger, op: Operation, hash: Hash, seen: R.Observation)
    requires op in db.transactions && op.escrow in db.escrows
    ensures var done := Reconcile(db, op, hash, seen);
            var escrow := db.escrows[op.escrow];
            var outcome := R.Observe(op.kind, R.View(escrow.status, db.transactions[op].status), seen);
            && (done.Ok? <==> db.transactions[op].hash == Some(hash) && outcome.Applied?)
            && (done.Ok? ==>
                  var after, view := done.value, outcome.view;
                  && SamePapers(db, after)
                  && after.escrows == db.escrows[op.escrow := escrow.(status := view.escrow)]
                  && after.transactions == db.transactions[op := db.transactions[op].(status := view.transaction)]
                  && (if escrow.status != E.Funded && view.escrow == E.Funded then ScopeFunded(db, after, escrow.scope)
                      else if escrow.status != E.Released && view.escrow == E.Released then
                        ScopeReleased(db, after, escrow.scope)
                      else if escrow.status != E.Refunded && view.escrow == E.Refunded then
                        ScopeRefunded(db, after, escrow.scope)
                      else after.agreements == db.agreements && after.milestones == db.milestones))
  {
    var escrow := db.escrows[op.escrow];
    var outcome := R.Observe(op.kind, R.View(escrow.status, db.transactions[op].status), seen);
    EventsTellStatus(op.kind, R.View(escrow.status, db.transactions[op].status), seen);
    if db.transactions[op].hash == Some(hash) {
      ReconcileLooks(db, op, hash, seen);
      if outcome.Applied? {
        hide R.Observe, Reconcile, FundScope, Settle;
        LookFollows(db, op, outcome.view);
        hide ScopeFunded, ScopeReleased, ScopeRefunded, SamePapers;
      }
    } else {
      hide R.Observe;
    }
  }

  lemma LookFollows(db: Ledger, op: Operation, view: R.View)
    requires op in db.transactions && op.escrow in db.escrows
    ensures var looked, scope := Looked(db, op, view), db.escrows[op.escrow].scope;
            var funded, released, refunded := FundScope(looked, scope), Settle(looked, scope, ToWorker),
                                              Settle(looked, scope, ToClient);
            && ScopeFunded(db, funded, scope) && ScopeReleased(db, released, scope) && ScopeRefunded(db, refunded, scope)
            && (forall after | after in {looked, funded, released, refunded} ::
                  SamePapers(db, after) && after.escrows == looked.escrows && after.transactions == looked.transactions)
  {
    var looked, scope := Looked(db, op, view), db.escrows[op.escrow].scope;
    assert op.escrow in EscrowsOf(looked, scope.agreement);
    hide EscrowsOf, FundScope, Settle;
    FundScopeFunds(looked, scope);
    SettleFollows(looked, scope, ToWorker);
    SettleFollows(looked, scope, ToClient);
    hide ScopeFunded, ScopeReleased, ScopeRefunded;
    SameScope(db, looked, FundScope(looked, scope), scope);
    SameScope(db, looked, Settle(looked, scope, ToWorker), scope);
    SameScope(db, looked, Settle(looked, scope, ToClient), scope);
  }
}
