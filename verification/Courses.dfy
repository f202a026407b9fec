/** Whole courses of work from one ledger to another, and what the settlement column says along every run. */
module Courses {
  import opened Results
  import opened Lifecycle
  import opened Ledger
  import opened Sums
  import opened Requests
  import opened Invariants
  import opened World
  import opened Outcomes
  import A = AgreementMachine
  import M = MilestoneMachine
  import E = EscrowMachine
  import R = Reconciliation

  // ---------------------------------------------------------------- courses of work

  /** A funded escrow off the chain for a milestone on which work can be handed in. */
  ghost predicate Workable(db: Ledger, a: Id, m: Id, e: Id) {
    && a in db.agreements && m in db.milestones && db.milestones[m].agreement == a && e in db.escrows
    && db.agreements[a].status in {A.Funded, A.InProgress, A.Rejected}
    && db.milestones[m].status in {M.Funded, M.InProgress, M.Rejected}
    && db.escrows[e].scope == Scope(a, Some(m)) && db.escrows[e].status == E.Funded && db.escrows[e].rail != Ckb
  }

  /** Every other escrow of the agreement ended this way. */
  ghost predicate OthersEnded(db: Ledger, a: Id, e: Id, status: E.Status) {
    forall f | f in db.escrows && f != e && db.escrows[f].scope.agreement == a :: db.escrows[f].status == status
  }

  /** Work is handed in, approved, and the release of its escrow reserved. */
  ghost function ReservedFor(db: Ledger, a: Id, m: Id, e: Id, p: Id, r: Id): Result<Ledger, Error> {
    var submitted :- SubmitProof(db, a, m, p);
    var approved :- ReviewProof(submitted, p, r, ApproveProof);
    ReserveSettlement(approved, e, ToWorker)
  }

  /** And then the escrow is released. */
  ghost function Paid(db: Ledger, a: Id, m: Id, e: Id, p: Id, r: Id, hash: Option<Hash>): Result<Ledger, Error> {
    var reserved :- ReservedFor(db, a, m, e, p, r);
    FinalizeSettlement(reserved, e, ToWorker, E.Released, hash)
  }

  /**
   Approved work is paid: nothing on the way is refused, the escrow and the
   milestone end released, and the agreement ends released with its payout
   confirmed if this was its last escrow, and approved otherwise.
   */
  lemma ApprovedWorkIsPaid(db: Ledger, a: Id, m: Id, e: Id, p: Id, r: Id, hash: Option<Hash>)
    requires Workable(db, a, m, e) && p !in db.proofs && r !in db.reviews && Operation(e, ReleaseTx) !in db.transactions
    ensures var done := Paid(db, a, m, e, p, r, hash);
            && done.Ok?
            && done.value.escrows == db.escrows[e := db.escrows[e].(status := E.Released)]
            && done.value.transactions == db.transactions[Operation(e, ReleaseTx) := Transaction(Confirmed, hash)]
            && m in done.value.milestones && done.value.milestones[m] == db.milestones[m].(status := M.Released)
            && done.value.proofs == db.proofs[p := Proof(a, m, Accepted)]
            && a in done.value.agreements
            && done.value.agreements[a] == (if OthersEnded(db, a, e, E.Released)
                                            then db.agreements[a].(status := A.Released, settlement := PayoutConfirmed)
                                            else db.agreements[a].(status := A.Approved))
  {
    hide ReservedFor, FinalizeSettlement, OthersEnded;
    WorkIsApproved(db, a, m, e, p, r);
    var reserved := ReservedFor(db, a, m, e, p, r).value;
    SameOthers(db, reserved, a, e, E.Released);
    SettlementEnds(reserved, a, m, e, ToWorker, hash);
    hide Workable;
    var key, row := Operation(e, ReleaseTx), db.escrows[e].(status := E.ReleasePending);
    assert db.escrows[e := row][e := row.(status := E.Released)] == db.escrows[e := row.(status := E.Released)];
    assert db.transactions[key := Transaction(TxPending, None)][key := Transaction(Confirmed, hash)]
           == db.transactions[key := Transaction(Confirmed, hash)];
  }

  lemma WorkIsApproved(db: Ledger, a: Id, m: Id, e: Id, p: Id, r: Id)
    requires Workable(db, a, m, e) && p !in db.proofs && r !in db.reviews && Operation(e, ReleaseTx) !in db.transactions
    ensures ReservedFor(db, a, m, e, p, r)
            == Ok(Ledger(db.agreements[a := db.agreements[a].(status := A.Approved)],
                         db.milestones[m := db.milestones[m].(status := M.Approved)],
                         db.proofs[p := Proof(a, m, Accepted)], db.reviews[r := Review(p, ApproveProof)], db.disputes,
                         db.escrows[e := db.escrows[e].(status := E.ReleasePending)],
                         db.transactions[Operation(e, ReleaseTx) := Transaction(TxPending, None)]))
  {
    SubmissionOutcome(db, a, m, p);
    var submitted := SubmitProof(db, a, m, p).value;
    ReviewOutcome(submitted, p, r, ApproveProof);
    var approved := ReviewProof(submitted, p, r, ApproveProof).value;
    hide SubmitProof, ReviewProof, ReserveSettlement;
    assert approved.agreements == db.agreements[a := db.agreements[a].(status := A.Approved)];
    assert approved.milestones == db.milestones[m := db.milestones[m].(status := M.Approved)];
    assert approved.proofs == db.proofs[p := Proof(a, m, Accepted)];
    ReleaseOutcome(approved, e);
  }

  /** The adapter's word ends a settlement off the chain, and milestone and agreement follow. */
  lemma SettlementEnds(db: Ledger, a: Id, m: Id, e: Id, op: Settlement, hash: Option<Hash>)
    requires a in db.agreements && m in db.milestones && e in db.escrows && db.escrows[e].rail != Ckb
    requires db.escrows[e].scope == Scope(a, Some(m)) && Operation(e, KindOf(op)) in db.transactions
    requires db.escrows[e].status == if op == ToWorker then E.ReleasePending else E.RefundPending
    requires db.agreements[a].status == if op == ToWorker then A.Approved else A.Disputed
    requires db.milestones[m].status == if op == ToWorker then M.Approved else M.Disputed
    ensures var ended := if op == ToWorker then E.Released else E.Refunded;
            var done := FinalizeSettlement(db, e, op, ended, hash);
            && done.Ok? && SamePapers(db, done.value)
            && done.value.escrows == db.escrows[e := db.escrows[e].(status := ended)]
            && done.value.transactions == db.transactions[Operation(e, KindOf(op)) := Transaction(Confirmed, hash)]
            && m in done.value.milestones && a in done.value.agreements
            && done.value.milestones[m] == db.milestones[m].(status := if op == ToWorker then M.Released else M.Refunded)
            && done.value.agreements[a]
               == if !OthersEnded(db, a, e, ended) then db.agreements[a]
                  else if op == ToWorker then db.agreements[a].(status := A.Released, settlement := PayoutConfirmed)
                  else db.agreements[a].(status := A.Refunded, settlement := RefundConfirmed)
  {
    var ended := if op == ToWorker then E.Released else E.Refunded;
    SettlementOutcome(db, e, op, ended, hash);
    var done := FinalizeSettlement(db, e, op, ended, hash).value;
    hide FinalizeSettlement;
    SameOthers(db, done, a, e, ended);
    hide AllEnded, OthersEnded;
  }

  lemma SameOthers(db: Ledger, after: Ledger, a: Id, e: Id, status: E.Status)
    requires e in db.escrows && e in after.escrows && after.escrows == db.escrows[e := after.escrows[e]]
    ensures OthersEnded(after, a, e, status) <==> OthersEnded(db, a, e, status)
    ensures after.escrows[e].status == status ==> (AllEnded(after, a, status) <==> OthersEnded(db, a, e, status))
  {
    forall f | f in db.escrows && f != e ensures f in after.escrows && after.escrows[f] == db.escrows[f] {
    }
  }

  /** Work that is not approved goes back: nothing is released for it, and it can be handed in again. */
  lemma RejectedWorkComesBack(db: Ledger, a: Id, m: Id, e: Id, p: Id, r: Id, again: Id, decision: Decision)
    requires Workable(db, a, m, e) && p !in db.proofs && r !in db.reviews && again !in db.proofs && again != p
    requires decision != ApproveProof
    ensures var submitted := SubmitProof(db, a, m, p);
            && submitted.Ok?
            && var judged := ReviewProof(submitted.value, p, r, decision);
               && judged.Ok? && judged.value.escrows == db.escrows
               && ReserveSettlement(judged.value, e, ToWorker) == Err(EscrowReleaseNotAllowed)
               && SubmitProof(judged.value, a, m, again).Ok?
  {
    SubmissionOutcome(db, a, m, p);
    var submitted := SubmitProof(db, a, m, p).value;
    ReviewOutcome(submitted, p, r, decision);
    var judged := ReviewProof(submitted, p, r, decision).value;
    SubmissionOutcome(judged, a, m, again);
    hide SubmitProof, ReviewProof, ReleaseDisputeIn;
  }

  /** Work is disputed, the dispute resolved in favour of the client, and the refund of the escrow reserved. */
  ghost function ReservedBack(db: Ledger, a: Id, m: Id, e: Id, d: Id): Result<Ledger, Error> {
    var disputed :- OpenDispute(db, a, m, d);
    var resolved :- ResolveDispute(disputed, d, Refund);
    ReserveSettlement(resolved, e, ToClient)
  }

  /** And then the escrow is refunded. */
  ghost function Returned(db: Ledger, a: Id, m: Id, e: Id, d: Id, hash: Option<Hash>): Result<Ledger, Error> {
    var reserved :- ReservedBack(db, a, m, e, d);
    FinalizeSettlement(reserved, e, ToClient, E.Refunded, hash)
  }

  /**
   Disputed work is refunded: nothing on the way is refused, the escrow and the
   milestone end refunded, and the agreement ends refunded with its refund
   confirmed if this was its last escrow, and disputed otherwise.
   */
  lemma DisputedWorkIsRefunded(db: Ledger, a: Id, m: Id, e: Id, d: Id, hash: Option<Hash>)
    requires OneEscrowPerScope(db) && Workable(db, a, m, e) && Operation(e, RefundTx) !in db.transactions
    requires db.agreements[a].status != A.Rejected && db.milestones[m].status != M.Rejected
    requires d !in db.disputes && forall x | x in db.disputes :: db.disputes[x] != Dispute(a, m, Open)
    ensures var done := Returned(db, a, m, e, d, hash);
            && done.Ok?
            && done.value.escrows == db.escrows[e := db.escrows[e].(status := E.Refunded)]
            && done.value.transactions == db.transactions[Operation(e, RefundTx) := Transaction(Confirmed, hash)]
            && m in done.value.milestones && done.value.milestones[m] == db.milestones[m].(status := M.Refunded)
            && done.value.disputes == db.disputes[d := Dispute(a, m, Resolved(Refund))]
            && a in done.value.agreements
            && done.value.agreements[a] == (if OthersEnded(db, a, e, E.Refunded)
                                            then db.agreements[a].(status := A.Refunded, settlement := RefundConfirmed)
                                            else db.agreements[a].(status := A.Disputed))
  {
    hide ReservedBack, FinalizeSettlement, OthersEnded;
    WorkIsDisputed(db, a, m, e, d);
    var reserved := ReservedBack(db, a, m, e, d).value;
    SameOthers(db, reserved, a, e, E.Refunded);
    SettlementEnds(reserved, a, m, e, ToClient, hash);
    hide Workable;
    var key, row := Operation(e, RefundTx), db.escrows[e].(status := E.RefundPending);
    assert db.escrows[e := row][e := row.(status := E.Refunded)] == db.escrows[e := row.(status := E.Refunded)];
    assert db.transactions[key := Transaction(TxPending, None)][key := Transaction(Confirmed, hash)]
           == db.transactions[key := Transaction(Confirmed, hash)];
  }

  lemma WorkIsDisputed(db: Ledger, a: Id, m: Id, e: Id, d: Id)
    requires OneEscrowPerScope(db) && Workable(db, a, m, e) && Operation(e, RefundTx) !in db.transactions
    requires db.agreements[a].status != A.Rejected && db.milestones[m].status != M.Rejected
    requires d !in db.disputes && forall x | x in db.disputes :: db.disputes[x] != Dispute(a, m, Open)
    ensures ReservedBack(db, a, m, e, d)
            == Ok(Ledger(db.agreements[a := db.agreements[a].(status := A.Disputed)],
                         db.milestones[m := db.milestones[m].(status := M.Disputed)],
                         db.proofs, db.reviews, db.disputes[d := Dispute(a, m, Resolved(Refund))],
                         db.escrows[e := db.escrows[e].(status := E.RefundPending)],
                         db.transactions[Operation(e, RefundTx) := Transaction(TxPending, None)]))
  {
    DisputeOutcome(db, a, m, d);
    var disputed := OpenDispute(db, a, m, d).value;
    hide OpenDispute;
    ResolutionOutcome(disputed, d, Refund);
    var resolved := ResolveDispute(disputed, d, Refund).value;
    hide ResolveDispute, ReserveSettlement, OneEscrowPerScope, Divides;
    assert resolved.agreements == db.agreements[a := db.agreements[a].(status := A.Disputed)];
    assert resolved.disputes == db.disputes[d := Dispute(a, m, Resolved(Refund))];
    RefundOutcome(resolved, e);
  }

  /** A dispute that was resolved otherwise does not let its escrow out to the worker; one resolved to release does. */
  lemma ResolutionDecidesRelease(db: Ledger, d: Id, e: Id, resolution: Resolution)
    requires OneEscrowPerScope(db) && ResolveDispute(db, d, resolution).Ok? && e in db.escrows
    requires db.escrows[e].scope == Scope(db.disputes[d].agreement, Some(db.disputes[d].milestone))
    requires db.escrows[e].status == E.Funded && Operation(e, ReleaseTx) !in db.transactions
    requires !ReleaseDisputeIn(db, db.escrows[e].scope)
    requires resolution.Split? ==> resolution.workerAmount <= MAX_SHANNONS && resolution.clientAmount <= MAX_SHANNONS
    ensures ReserveSettlement(ResolveDispute(db, d, resolution).value, e, ToWorker).Ok? <==> resolution == Release
  {
    ResolutionOutcome(db, d, resolution);
    var resolved := ResolveDispute(db, d, resolution).value;
    ReleaseOutcome(resolved, e);
    ReleaseDisputes(db, db.escrows[e].scope);
    hide ResolveDispute, ReserveSettlement, ReleaseDisputeIn;
  }

  // ---------------------------------------------------------------- the settlement column

  /** The settlement column that belongs to an agreement status. */
  predicate ColumnFits(row: Agreement) {
    match row.settlement
    case Unfunded => row.status in {A.Draft, A.PendingAcceptance, A.Accepted}
    case FundingPending => row.status in {A.FundingRequired, A.Cancelled}
    case FundsHeld => row.status in {A.Funded, A.InProgress, A.ProofSubmitted, A.UnderReview, A.Approved, A.ReleasePending,
                                     A.Rejected, A.Disputed}
    case PayoutConfirmed => row.status == A.Released
    case RefundConfirmed => row.status == A.Refunded
  }

  ghost predicate ColumnsFit(db: Ledger) {
    forall a | a in db.agreements :: ColumnFits(db.agreements[a])
  }

  lemma AgreementColumns(db: Ledger, a: Id)
    requires ColumnsFit(db)
    ensures AcceptAgreement(db, a).Ok? ==> ColumnsFit(AcceptAgreement(db, a).value)
    ensures MoveAgreement(db, a, A.FundingRequired).Ok? ==> ColumnsFit(MoveAgreement(db, a, A.FundingRequired).value)
    ensures MoveAgreement(db, a, A.Cancelled).Ok? ==> ColumnsFit(MoveAgreement(db, a, A.Cancelled).value)
  {
    if a in db.agreements {
      AgreementOutcome(db, a);
    }
    hide AcceptAgreement, MoveAgreement;
  }

  lemma WorkColumns(db: Ledger, a: Id, m: Id, x: Id, y: Id, decision: Decision)
    requires ColumnsFit(db)
    ensures SubmitProof(db, a, m, x).Ok? ==> ColumnsFit(SubmitProof(db, a, m, x).value)
    ensures ReviewProof(db, x, y, decision).Ok? ==> ColumnsFit(ReviewProof(db, x, y, decision).value)
    ensures OpenDispute(db, a, m, x).Ok? ==> ColumnsFit(OpenDispute(db, a, m, x).value)
  {
    SubmissionOutcome(db, a, m, x);
    ReviewOutcome(db, x, y, decision);
    DisputeOutcome(db, a, m, x);
    hide SubmitProof, ReviewProof, OpenDispute;
  }

  lemma ResolutionColumns(db: Ledger, d: Id, resolution: Resolution)
    requires ColumnsFit(db) && ResolveDispute(db, d, resolution).Ok?
    ensures ColumnsFit(ResolveDispute(db, d, resolution).value)
  {
    hide SplitError;
  }

  lemma FundingColumns(db: Ledger, e: Id, next: E.Status, hash: Option<Hash>)
    requires ColumnsFit(db) && FinalizeFunding(db, e, next, hash).Ok?
    ensures ColumnsFit(FinalizeFunding(db, e, next, hash).value)
  {
    FundingOutcome(db, e, next, hash);
    ScopesKeepColumns(db, FinalizeFunding(db, e, next, hash).value, db.escrows[e].scope);
    hide FinalizeFunding, ScopeFunded, ColumnFits;
  }

  lemma ScopesKeepColumns(db: Ledger, after: Ledger, scope: Scope)
    requires ColumnsFit(db)
    ensures ScopeFunded(db, after, scope) || ScopeReleased(db, after, scope) || ScopeRefunded(db, after, scope) ==>
              ColumnsFit(after)
  {
    hide AllEnded;
  }

  lemma SettlementColumns(db: Ledger, flight: Flight)
    requires ColumnsFit(db) && flight.Settling? && flight.answer.Answered?
    ensures var done := FinalizeSettlement(db, flight.escrow, flight.op, flight.answer.status, flight.answer.hash);
            done.Ok? ==> ColumnsFit(done.value)
  {
    SettlementOutcome(db, flight.escrow, flight.op, flight.answer.status, flight.answer.hash);
    var done := FinalizeSettlement(db, flight.escrow, flight.op, flight.answer.status, flight.answer.hash);
    if done.Ok? {
      ScopesKeepColumns(db, done.value, db.escrows[flight.escrow].scope);
    }
    hide FinalizeSettlement, ScopeReleased, ScopeRefunded, ColumnFits;
  }

  lemma LookColumns(db: Ledger, op: Operation, hash: Hash, seen: R.Observation)
    requires ColumnsFit(db) && Reconcile(db, op, hash, seen).Ok?
    ensures ColumnsFit(Reconcile(db, op, hash, seen).value)
  {
    LookOutcome(db, op, hash, seen);
    var after := Reconcile(db, op, hash, seen).value;
    ScopesKeepColumns(db, after, db.escrows[op.escrow].scope);
    hide Reconcile, R.Observe, ScopeFunded, ScopeReleased, ScopeRefunded, ColumnFits;
  }

  lemma CreationColumns(db: Ledger, e: Id, next: E.Status, hash: Option<Hash>)
    ensures FinalizeCreation(db, e, next, hash).Ok? ==> FinalizeCreation(db, e, next, hash).value.agreements == db.agreements
    ensures DiscardCreation(db, e).agreements == db.agreements
  {
  }

  lemma ReservationColumns(db: Ledger, e: Id, scope: Scope, amount: int, currency: string, rail: Rail)
    requires ReserveCreation(db, e, scope, amount, currency, rail).Ok?
    ensures ReserveCreation(db, e, scope, amount, currency, rail).value.agreements == db.agreements
  {
  }

  lemma PendingColumns(db: Ledger, e: Id, op: Settlement)
    ensures ReserveSettlement(db, e, op).Ok? ==> ReserveSettlement(db, e, op).value.agreements == db.agreements
    ensures FinalizeFailure(db, e, op).Ok? ==> FinalizeFailure(db, e, op).value.agreements == db.agreements
  {
    hide SettlementError;
  }

  lemma NextKeepsColumns(w: World, step: Step)
    requires ColumnsFit(w.db)
    ensures ColumnsFit(Next(w, step).db)
  {
    hide AcceptAgreement, MoveAgreement, CreateMilestone, SubmitProof, ReviewProof, OpenDispute, ResolveDispute,
         ReserveCreation, FinalizeCreation, DiscardCreation, FinalizeFunding, ReserveSettlement, FinalizeFailure,
         FinalizeSettlement, Reconcile, ColumnFits;
    var db := w.db;
    match step {
      case NewAgreement(a, sum, currency) =>
        if CreateAgreement(db, a, sum, currency).Ok? { NewColumn(db, a, sum, currency); }
      case Accept(a) => AgreementColumns(db, a);
      case RequireFunding(a) => AgreementColumns(db, a);
      case Cancel(a) => AgreementColumns(db, a);
      case NewMilestone(a, m, sum, currency, order, reference) =>
        MilestoneOutcome(db, a, m, sum, currency, order, reference);
      case Submit(a, m, p) => WorkColumns(db, a, m, p, p, ApproveProof);
      case Judge(p, r, decision) => WorkColumns(db, p, p, p, r, decision);
      case Contest(a, m, d) => WorkColumns(db, a, m, d, d, ApproveProof);
      case Resolve(d, resolution) => if ResolveDispute(db, d, resolution).Ok? { ResolutionColumns(db, d, resolution); }
      case _ => EscrowStepKeepsColumns(w, step);
    }
  }

  lemma EscrowStepKeepsColumns(w: World, step: Step)
    requires ColumnsFit(w.db)
    requires !step.NewAgreement? && !step.Accept? && !step.RequireFunding? && !step.Cancel? && !step.NewMilestone?
    requires !step.Submit? && !step.Judge? && !step.Contest? && !step.Resolve?
    ensures ColumnsFit(Next(w, step).db)
  {
    hide ReserveCreation, FinalizeCreation, DiscardCreation, FinalizeFunding, ReserveSettlement, FinalizeFailure,
         FinalizeSettlement, Reconcile, ColumnFits;
    var db := w.db;
    match step {
      case BeginCreation(r, e, scope, sum, currency, rail) =>
        if ReserveCreation(db, e, scope, sum, currency, rail).Ok? {
          ReservationColumns(db, e, scope, sum, currency, rail);
        }
      case FinishCreation(r, status, hash) =>
        if r in w.flights { CreationColumns(db, w.flights[r].escrow, status, hash); }
      case AbandonCreation(r) =>
        if r in w.flights { CreationColumns(db, w.flights[r].escrow, E.Failed, None); }
      case FinishFunding(r, status, hash) =>
        if r in w.flights && FinalizeFunding(db, w.flights[r].escrow, status, hash).Ok? {
          FundingColumns(db, w.flights[r].escrow, status, hash);
        }
      case BeginSettlement(r, e, op) => PendingColumns(db, e, op);
      case FinishSettlement(r) =>
        if r in w.flights && w.flights[r].Settling? {
          PendingColumns(db, w.flights[r].escrow, w.flights[r].op);
          if w.flights[r].answer.Answered? { SettlementColumns(db, w.flights[r]); }
        }
      case LookAtChain(op, hash, seen) => if Reconcile(db, op, hash, seen).Ok? { LookColumns(db, op, hash, seen); }
      case _ =>
    }
  }

  lemma NewColumn(db: Ledger, a: Id, sum: int, currency: string)
    requires ColumnsFit(db) && CreateAgreement(db, a, sum, currency).Ok?
    ensures ColumnsFit(CreateAgreement(db, a, sum, currency).value)
  {
  }

  lemma {:induction false} RunKeepsColumns(steps: seq<Step>)
    ensures ColumnsFit(Run(START, steps).db)
  {
    hide Next, ColumnFits;
    if steps != [] {
      RunKeepsColumns(steps[..|steps| - 1]);
      NextKeepsColumns(Run(START, steps[..|steps| - 1]), steps[|steps| - 1]);
    }
  }

  /** In every reachable ledger the settlement column tells the phase of the agreement. */
  lemma {:induction false} SettlementColumnFits(steps: seq<Step>, a: Id)
    ensures var db := Run(START, steps).db;
            a in db.agreements ==> ColumnFits(db.agreements[a])
  {
    RunKeepsColumns(steps);
    hide Run, ColumnFits;
  }

  /**
   An agreement whose funds are held does not take another milestone, with one
   exception: while a proof of it stands rejected, it does.
   */
  lemma {:induction false} HeldTermsAreImmutable(steps: seq<Step>, a: Id, m: Id, amount: int, currency: string,
                                                 order: Option<int>, reference: Option<string>)
    ensures var db := Run(START, steps).db;
            a in db.agreements && db.agreements[a].settlement == FundsHeld ==>
              (CreateMilestone(db, a, m, amount, currency, order, reference) == Err(FundedAgreementImmutable)
               <==> db.agreements[a].status != A.Rejected)
  {
    SettlementColumnFits(steps, a);
    hide Run, Allocated, OrderFor, Taken;
  }
}
