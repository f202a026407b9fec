/**
 The service as it runs: methods that compare, swap and write rows one after
 the other inside a database transaction that is rolled back when one of them
 throws.  Each is proved to be the request that `Requests` specifies.
 */
module Service {
  import opened Results
  import opened Lifecycle
  import opened Ledger
  import opened Sums
  import opened Requests
  import opened Invariants
  import A = AgreementMachine
  import M = MilestoneMachine
  import E = EscrowMachine
  import R = Reconciliation

  // ---------------------------------------------------------------- walking a path of statuses

  /** What a sequence of checked compare-and-swap updates of one agreement does. */
  function WalkAgreement(db: Ledger, a: Id, from: A.Status, path: seq<A.Status>): Result<Ledger, Error>
    decreases |path|
  {
    if path == [] then Ok(db)
    else if !A.CanTransition(from, path[0]) then Err(InvalidStateTransition)
    else if a !in db.agreements || db.agreements[a].status != from then Err(LifecycleConflict)
    else WalkAgreement(WithAgreementStatus(db, a, path[0]), a, path[0], path[1..])
  }

  function WalkMilestone(db: Ledger, m: Id, from: M.Status, path: seq<M.Status>): Result<Ledger, Error>
    decreases |path|
  {
    if path == [] then Ok(db)
    else if !M.CanTransition(from, path[0]) then Err(InvalidStateTransition)
    else if m !in db.milestones || db.milestones[m].status != from then Err(LifecycleConflict)
    else WalkMilestone(WithMilestoneStatus(db, m, path[0]), m, path[0], path[1..])
  }

  const MONEY: set<A.Status> := {A.FundingRequired, A.Funded, A.Released, A.Refunded}

  /** A walk along the table that moves no money ends as one jump to its last status. */
  lemma {:induction false} AgreementWalkEnds(db: Ledger, a: Id, from: A.Status, path: seq<A.Status>)
    requires a in db.agreements && db.agreements[a].status == from
    requires Walkable(AGREEMENT_TABLE, from, path) && forall s | s in path :: s !in MONEY
    ensures WalkAgreement(db, a, from, path)
            == Ok(if path == [] then db else WithAgreementStatus(db, a, path[|path| - 1]))
    decreases |path|
  {
    if path != [] {
      var next := WithAgreementStatus(db, a, path[0]);
      AgreementWalkEnds(next, a, path[0], path[1..]);
      if |path| > 1 {
        var last := path[|path| - 1];
        assert last in path && path[0] in path;
        assert next.agreements[a := db.agreements[a].(status := last)] == db.agreements[a := db.agreements[a].(status := last)];
      }
    }
  }

  lemma {:induction false} MilestoneWalkEnds(db: Ledger, m: Id, from: M.Status, path: seq<M.Status>)
    requires m in db.milestones && db.milestones[m].status == from && Walkable(MILESTONE_TABLE, from, path)
    ensures WalkMilestone(db, m, from, path)
            == Ok(if path == [] then db else WithMilestoneStatus(db, m, path[|path| - 1]))
    decreases |path|
  {
    if path != [] {
      var next := WithMilestoneStatus(db, m, path[0]);
      MilestoneWalkEnds(next, m, path[0], path[1..]);
      if |path| > 1 {
        var last := path[|path| - 1];
        assert next.milestones[m := db.milestones[m].(status := last)]
               == db.milestones[m := db.milestones[m].(status := last)];
      }
    }
  }

  /** How a request that threw, or not, left the rows. */
  ghost predicate Did(request: Result<Ledger, Error>, before: Ledger, after: Ledger, thrown: Option<Error>) {
    if request.Ok? then thrown == None && after == request.value
    else thrown == Some(request.error) && after == before
  }

  // ---------------------------------------------------------------- the rows and what the repositories do to them

  class Database {
    var rows: Ledger

    ghost predicate Valid()
      reads this
    {
      Inv(rows)
    }

    constructor ()
      ensures Valid() && rows == EMPTY
    {
      rows := EMPTY;
      EmptyLedgerIsFine();
    }

    /** Updates the agreement if it still has the expected status, and throws if no row was updated. */
    method TransitionAgreementStatus(a: Id, expected: A.Status, next: A.Status) returns (thrown: Option<Error>)
      modifies this
      ensures thrown == None <==> a in old(rows).agreements && old(rows).agreements[a].status == expected
      ensures thrown == None ==> rows == WithAgreementStatus(old(rows), a, next)
      ensures thrown != None ==> thrown == Some(LifecycleConflict) && rows == old(rows)
    {
      if a !in rows.agreements || rows.agreements[a].status != expected {
        return Some(LifecycleConflict);
      }
      var row := rows.agreements[a].(status := next);
      match next {
        case FundingRequired => row := row.(settlement := FundingPending);
        case Funded => row := row.(settlement := FundsHeld);
        case Released => row := row.(settlement := PayoutConfirmed);
        case Refunded => row := row.(settlement := RefundConfirmed);
        case _ =>
      }
      rows := rows.(agreements := rows.agreements[a := row]);
      thrown := None;
    }

    method TransitionMilestoneStatus(m: Id, expected: M.Status, next: M.Status) returns (thrown: Option<Error>)
      modifies this
      ensures thrown == None <==> m in old(rows).milestones && old(rows).milestones[m].status == expected
      ensures thrown == None ==> rows == WithMilestoneStatus(old(rows), m, next)
      ensures thrown != None ==> thrown == Some(LifecycleConflict) && rows == old(rows)
    {
      if m !in rows.milestones || rows.milestones[m].status != expected {
        return Some(LifecycleConflict);
      }
      rows := rows.(milestones := rows.milestones[m := rows.milestones[m].(status := next)]);
      thrown := None;
    }

    method TransitionEscrowStatus(e: Id, expected: E.Status, next: E.Status) returns (thrown: Option<Error>)
      modifies this
      ensures thrown == None <==> e in old(rows).escrows && old(rows).escrows[e].status == expected
      ensures thrown == None ==> rows == WithEscrowStatus(old(rows), e, next)
      ensures thrown != None ==> thrown == Some(LifecycleConflict) && rows == old(rows)
    {
      if e !in rows.escrows || rows.escrows[e].status != expected {
        return Some(LifecycleConflict);
      }
      rows := rows.(escrows := rows.escrows[e := rows.escrows[e].(status := next)]);
      thrown := None;
    }

    method AdvanceAgreement(a: Id, from: A.Status, path: seq<A.Status>) returns (thrown: Option<Error>)
      modifies this
      ensures var walk := WalkAgreement(old(rows), a, from, path);
              if walk.Ok? then thrown == None && rows == walk.value else thrown == Some(walk.error)
    {
      var current := from;
      for i := 0 to |path|
        invariant WalkAgreement(old(rows), a, from, path) == WalkAgreement(rows, a, current, path[i..])
      {
        if !A.CanTransition(current, path[i]) {
          return Some(InvalidStateTransition);
        }
        thrown := TransitionAgreementStatus(a, current, path[i]);
        if thrown != None {
          return;
        }
        current := path[i];
        assert path[i..][1..] == path[i + 1..];
      }
      thrown := None;
    }

    method AdvanceMilestone(m: Id, from: M.Status, path: seq<M.Status>) returns (thrown: Option<Error>)
      modifies this
      ensures var walk := WalkMilestone(old(rows), m, from, path);
              if walk.Ok? then thrown == None && rows == walk.value else thrown == Some(walk.error)
    {
      var current := from;
      for i := 0 to |path|
        invariant WalkMilestone(old(rows), m, from, path) == WalkMilestone(rows, m, current, path[i..])
      {
        if !M.CanTransition(current, path[i]) {
          return Some(InvalidStateTransition);
        }
        thrown := TransitionMilestoneStatus(m, current, path[i]);
        if thrown != None {
          return;
        }
        current := path[i];
        assert path[i..][1..] == path[i + 1..];
      }
      thrown := None;
    }

    // -------------------------------------------------------------- agreements and milestones

    method AcceptAgreement(a: Id) returns (thrown: Option<Error>)
      requires Valid()
      modifies this
      ensures Valid() && Did(Requests.AcceptAgreement(old(rows), a), old(rows), rows, thrown)
    {
      if a !in rows.agreements {
        return Some(AgreementNotFound);
      }
      var from := rows.agreements[a].status;
      if !A.CanTransition(from, A.PendingAcceptance) || !A.CanTransition(A.PendingAcceptance, A.Accepted) {
        return Some(InvalidStateTransition);
      }
      AcceptingKeeps(rows, a);
      hide Inv, WithAgreementStatus;
      thrown := TransitionAgreementStatus(a, from, A.PendingAcceptance);
      thrown := TransitionAgreementStatus(a, A.PendingAcceptance, A.Accepted);
    }

    /** Cancelling, and asking for funding. */
    method MoveAgreement(a: Id, to: A.Status) returns (thrown: Option<Error>)
      requires Valid() && to in {A.FundingRequired, A.Cancelled}
      modifies this
      ensures Valid() && Did(Requests.MoveAgreement(old(rows), a, to), old(rows), rows, thrown)
    {
      if a !in rows.agreements {
        return Some(AgreementNotFound);
      }
      var from := rows.agreements[a].status;
      if !A.CanTransition(from, to) {
        return Some(InvalidStateTransition);
      }
      MovingKeeps(rows, a, to);
      hide Inv;
      thrown := TransitionAgreementStatus(a, from, to);
    }

    /** The amounts already promised to milestones of the agreement. */
    method SumMilestones(a: Id) returns (total: nat)
      ensures total == Allocated(rows, a)
    {
      total := 0;
      var amounts := MilestoneAmounts(rows, a);
      var todo := amounts;
      while todo.Keys != {}
        invariant total + Total(todo) == Total(amounts)
        decreases |todo|
      {
        var m :| m in todo.Keys;
        TotalSplit(todo, m);
        total := total + todo[m];
        todo := todo - {m};
      }
      assert todo == map[];
    }

    method CreateMilestone(a: Id, m: Id, amount: int, currency: string, order: Option<int>, reference: Option<string>)
      returns (thrown: Option<Error>)
      requires Valid()
      modifies this
      ensures Valid() && Did(Requests.CreateMilestone(old(rows), a, m, amount, currency, order, reference),
                             old(rows), rows, thrown)
    {
      hide Inv, Allocated;
      if a !in rows.agreements {
        return Some(AgreementNotFound);
      }
      if rows.agreements[a].status in IMMUTABLE {
        return Some(FundedAgreementImmutable);
      }
      var existing := SumMilestones(a);
      if amount < 1 {
        return Some(InvalidAmount);
      }
      if amount > MAX_SHANNONS {
        return Some(AmountOutOfRange);
      }
      if existing + amount > rows.agreements[a].amount {
        return Some(MilestoneTotalExceedsAgreement);
      }
      if currency != rows.agreements[a].currency {
        return Some(CurrencyMismatch);
      }
      var place := LastOrder(rows, a) + 1;
      if order.Some? {
        place := order.value;
      }
      if m in rows.milestones || Taken(rows, a, place, reference) {
        return Some(MilestoneAlreadyExists);
      }
      CreateMilestoneKeeps(rows, a, m, amount, currency, order, reference);
      rows := rows.(milestones := rows.milestones[m := Milestone(a, amount, place, reference, M.Pending)]);
      thrown := None;
    }

    // -------------------------------------------------------------- proofs

    method SubmitProof(a: Id, m: Id, p: Id) returns (thrown: Option<Error>)
      requires Valid()
      modifies this
      ensures Valid() && Did(Requests.SubmitProof(old(rows), a, m, p), old(rows), rows, thrown)
    {
      hide Inv, WalkAgreement, WalkMilestone, WithAgreementStatus, WithMilestoneStatus;
      if a !in rows.agreements {
        return Some(AgreementNotFound);
      }
      if !MilestoneOf(rows, m, a) {
        return Some(MilestoneNotFound);
      }
      var agreementStatus, milestoneStatus := rows.agreements[a].status, rows.milestones[m].status;
      var agreementPath, milestonePath := AgreementSubmissionPath(agreementStatus), MilestoneSubmissionPath(milestoneStatus);
      if agreementPath == None {
        return Some(if agreementStatus in OVER then ProofSubmissionNotAllowed else ProofSubmissionRequiresActiveAgreement);
      }
      if milestonePath == None {
        return Some(if milestoneStatus in MILESTONE_OVER then ProofSubmissionNotAllowed
                    else ProofSubmissionRequiresActiveMilestone);
      }
      if p in rows.proofs {
        return Some(UniqueConstraint);
      }
      SubmissionWalks(rows, a, m, p);
      SubmitProofKeeps(rows, a, m, p);
      rows := rows.(proofs := rows.proofs[p := Proof(a, m, Submitted)]);
      thrown := AdvanceAgreement(a, agreementStatus, agreementPath.value);
      thrown := AdvanceMilestone(m, milestoneStatus, milestonePath.value);
    }

    method TransitionProofStatus(p: Id, expected: ProofStatus, next: ProofStatus) returns (thrown: Option<Error>)
      modifies this
      ensures thrown == None <==> p in old(rows).proofs && old(rows).proofs[p].status == expected
      ensures thrown == None ==> rows == old(rows).(proofs := old(rows).proofs[p := old(rows).proofs[p].(status := next)])
      ensures thrown != None ==> thrown == Some(LifecycleConflict) && rows == old(rows)
    {
      if p !in rows.proofs || rows.proofs[p].status != expected {
        return Some(LifecycleConflict);
      }
      rows := rows.(proofs := rows.proofs[p := rows.proofs[p].(status := next)]);
      thrown := None;
    }

    method ReviewProof(p: Id, r: Id, decision: Decision) returns (thrown: Option<Error>)
      requires Valid()
      modifies this
      ensures Valid() && Did(Requests.ReviewProof(old(rows), p, r, decision), old(rows), rows, thrown)
    {
      hide Inv, WalkAgreement, WalkMilestone, WithAgreementStatus, WithMilestoneStatus;
      if p !in rows.proofs {
        return Some(ProofNotFound);
      }
      var proof := rows.proofs[p];
      var a, m := proof.agreement, proof.milestone;
      if !Awaiting(proof) {
        return Some(ProofAlreadyReviewed);
      }
      if a !in rows.agreements {
        return Some(AgreementNotFound);
      }
      if !MilestoneOf(rows, m, a) {
        return Some(MilestoneNotFound);
      }
      var agreementStatus, milestoneStatus := rows.agreements[a].status, rows.milestones[m].status;
      var agreementPath := AgreementReviewPath(agreementStatus, decision);
      var milestonePath := MilestoneReviewPath(milestoneStatus, decision);
      if agreementPath == None {
        return Some(ProofReviewInvalidAgreementState);
      }
      if milestonePath == None {
        return Some(ProofReviewInvalidMilestoneState);
      }
      if r in rows.reviews {
        return Some(UniqueConstraint);
      }
      ReviewWalks(rows, p, r, decision);
      ReviewEnds(rows, p, r, decision);
      ReviewProofKeeps(rows, p, r, decision);
      var current := proof.status;
      if current == Submitted {
        thrown := TransitionProofStatus(p, current, ProofStatus.UnderReview);
        current := ProofStatus.UnderReview;
      }
      thrown := AdvanceAgreement(a, agreementStatus, agreementPath.value);
      thrown := AdvanceMilestone(m, milestoneStatus, milestonePath.value);
      thrown := TransitionProofStatus(p, current, ProofStatusFor(decision));
      rows := rows.(reviews := rows.reviews[r := Review(p, decision)]);
    }

    // -------------------------------------------------------------- disputes

    method OpenDispute(a: Id, m: Id, d: Id) returns (thrown: Option<Error>)
      requires Valid()
      modifies this
      ensures Valid() && Did(Requests.OpenDispute(old(rows), a, m, d), old(rows), rows, thrown)
    {
      hide Inv, WalkAgreement, WalkMilestone, WithAgreementStatus, WithMilestoneStatus;
      if a !in rows.agreements {
        return Some(AgreementNotFound);
      }
      if !MilestoneOf(rows, m, a) {
        return Some(MilestoneNotFound);
      }
      if UnresolvedDispute(rows, a, m) {
        return Some(ActiveDisputeExists);
      }
      var agreementStatus, milestoneStatus := rows.agreements[a].status, rows.milestones[m].status;
      var agreementPath, milestonePath := AgreementDisputePath(agreementStatus), MilestoneDisputePath(milestoneStatus);
      if agreementPath == None || milestonePath == None {
        return Some(InvalidStateTransition);
      }
      if d in rows.disputes {
        return Some(UniqueConstraint);
      }
      DisputeWalks(rows, a, m, d);
      OpenDisputeKeeps(rows, a, m, d);
      rows := rows.(disputes := rows.disputes[d := Dispute(a, m, Open)]);
      thrown := AdvanceAgreement(a, agreementStatus, agreementPath.value);
      thrown := AdvanceMilestone(m, milestoneStatus, milestonePath.value);
    }

    /** The escrow of the scope that is not settled yet. */
    method FindActiveEscrow(scope: Scope) returns (found: Option<Id>)
      ensures found == None <==> EscrowsIn(rows, scope, E.ACTIVE) == {}
      ensures found != None ==> found.value in EscrowsIn(rows, scope, E.ACTIVE)
    {
      var active := EscrowsIn(rows, scope, E.ACTIVE);
      if active == {} {
        return None;
      }
      var e :| e in active;
      found := Some(e);
    }

    method CheckResolution(a: Id, m: Id, resolution: Resolution) returns (thrown: Option<Error>)
      requires OneEscrowPerScope(rows)
      ensures thrown == SplitError(rows, a, m, resolution)
    {
      if !resolution.Split? {
        return None;
      }
      var found := FindActiveEscrow(Scope(a, Some(m)));
      if found == None {
        return Some(DisputeFundedEscrowRequired);
      }
      assert forall f | f in EscrowsIn(rows, Scope(a, Some(m)), E.ACTIVE) :: f == found.value;
      if rows.escrows[found.value].status != E.Funded {
        return Some(DisputeFundedEscrowRequired);
      }
      thrown := CheckSplit(resolution.workerAmount, resolution.clientAmount, rows.escrows[found.value].amount);
    }

    method ResolveDispute(d: Id, resolution: Resolution) returns (thrown: Option<Error>)
      requires Valid()
      modifies this
      ensures Valid() && Did(Requests.ResolveDispute(old(rows), d, resolution), old(rows), rows, thrown)
    {
      TermsOf(rows);
      hide Inv, WalkAgreement, WalkMilestone, WithAgreementStatus, WithMilestoneStatus, SplitError, OneEscrowPerScope;
      if d !in rows.disputes {
        return Some(DisputeNotFound);
      }
      var dispute := rows.disputes[d];
      var a, m := dispute.agreement, dispute.milestone;
      if dispute.status != Open {
        return Some(DisputeAlreadyResolved);
      }
      if a !in rows.agreements {
        return Some(AgreementNotFound);
      }
      if !MilestoneOf(rows, m, a) {
        return Some(MilestoneNotFound);
      }
      thrown := CheckResolution(a, m, resolution);
      if thrown != None {
        return;
      }
      var agreementStatus, milestoneStatus := rows.agreements[a].status, rows.milestones[m].status;
      var agreementPath := AgreementResolutionPath(agreementStatus, resolution);
      var milestonePath := MilestoneResolutionPath(milestoneStatus, resolution);
      if agreementPath == None || milestonePath == None {
        return Some(InvalidStateTransition);
      }
      ResolutionWalks(rows, d, resolution);
      ResolveDisputeKeeps(rows, d, resolution);
      rows := rows.(disputes := rows.disputes[d := dispute.(status := Resolved(resolution))]);
      thrown := AdvanceAgreement(a, agreementStatus, agreementPath.value);
      thrown := AdvanceMilestone(m, milestoneStatus, milestonePath.value);
    }

    // -------------------------------------------------------------- escrow creation

    method ReserveCreation(e: Id, scope: Scope, amount: int, currency: string, rail: Rail) returns (thrown: Option<Error>)
      requires Valid()
      modifies this
      ensures Valid()
      ensures Did(Requests.ReserveCreation(old(rows), e, scope, amount, currency, rail), old(rows), rows, thrown)
    {
      hide Inv, TerminalEscrows, EscrowsIn;
      if rail == Ckb && scope.milestone == None {
        return Some(CkbRequiresMilestone);
      }
      thrown := ScopeError(rows, scope);
      if thrown != None {
        return;
      }
      if currency != rows.agreements[scope.agreement].currency {
        return Some(CurrencyMismatch);
      }
      thrown := AmountError(amount, ScopeAmount(rows, scope), rail == Ckb);
      if thrown != None {
        return;
      }
      if TerminalEscrows(rows, scope) != {} {
        return Some(EscrowTerminalStateExists);
      }
      var active := FindActiveEscrow(scope);
      if active != None {
        return Some(ActiveEscrowExists);
      }
      if e in rows.escrows || Operation(e, LockTx) in rows.transactions {
        return Some(UniqueConstraint);
      }
      ReserveCreationKeeps(rows, e, scope, amount, currency, rail);
      rows := rows.(escrows := rows.escrows[e := Escrow(scope, amount, currency, rail, E.NotCreated)]);
      rows := rows.(transactions := rows.transactions[Operation(e, LockTx) := Transaction(TxPending, None)]);
    }

    method DiscardCreation(e: Id)
      requires Valid()
      modifies this
      ensures Valid() && rows == Requests.DiscardCreation(old(rows), e)
    {
      DiscardCreationKeeps(rows, e);
      hide Inv;
      rows := rows.(transactions := rows.transactions - {Operation(e, LockTx)});
      if e in rows.escrows && rows.escrows[e].status == E.NotCreated {
        rows := rows.(escrows := rows.escrows - {e});
      }
    }

    /** Updates the transaction row, if it is there. */
    method UpdateTransaction(op: Operation, row: Transaction)
      modifies this
      ensures rows == WithTransaction(old(rows), op, row)
    {
      if op in rows.transactions {
        rows := rows.(transactions := rows.transactions[op := row]);
      }
    }

    method FinalizeCreation(e: Id, next: E.Status, hash: Option<Hash>) returns (thrown: Option<Error>)
      requires Valid()
      modifies this
      ensures Valid() && Did(Requests.FinalizeCreation(old(rows), e, next, hash), old(rows), rows, thrown)
    {
      hide Inv;
      if !E.CanTransition(E.NotCreated, next) {
        return Some(InvalidStateTransition);
      }
      if Requests.FinalizeCreation(rows, e, next, hash).Ok? {
        FinalizeCreationKeeps(rows, e, next, hash);
      }
      hide WithTransaction;
      thrown := TransitionEscrowStatus(e, E.NotCreated, next);
      if thrown != None {
        return;
      }
      var status := Confirmed;
      if next == E.ReconciliationRequired {
        status := TxReconciliationRequired;
      } else if rows.escrows[e].rail == Ckb {
        status := Broadcast;
      }
      UpdateTransaction(Operation(e, LockTx), Transaction(status, hash));
    }

    // -------------------------------------------------------------- funding

    method TransitionFundingScope(scope: Scope)
      modifies this
      ensures rows == FundScope(old(rows), scope)
    {
      var a := scope.agreement;
      if a in rows.agreements && rows.agreements[a].status == A.FundingRequired {
        var _ := TransitionAgreementStatus(a, A.FundingRequired, A.Funded);
      }
      if scope.milestone.Some? {
        var m := scope.milestone.value;
        if m in rows.milestones && rows.milestones[m].status in {M.Pending, M.FundingRequired} {
          var _ := TransitionMilestoneStatus(m, rows.milestones[m].status, M.Funded);
        }
      }
    }

    method FinalizeFunding(e: Id, next: E.Status, hash: Option<Hash>) returns (thrown: Option<Error>)
      requires Valid()
      modifies this
      ensures Valid() && Did(Requests.FinalizeFunding(old(rows), e, next, hash), old(rows), rows, thrown)
    {
      hide Inv, FundScope;
      if Requests.FinalizeFunding(rows, e, next, hash).Ok? {
        FinalizeFundingKeeps(rows, e, next, hash);
      }
      if e !in rows.escrows {
        return Some(EscrowNotFound);
      }
      var from, scope, op := rows.escrows[e].status, rows.escrows[e].scope, Operation(e, LockTx);
      if from == E.Funded {
        return None;
      }
      if next !in {E.FundingDetected, E.Funded} {
        return Some(InvalidFundingStatus);
      }
      var lockHash := if op in rows.transactions then rows.transactions[op].hash else None;
      if from != next {
        if !E.CanTransition(from, next) {
          return Some(InvalidStateTransition);
        }
        thrown := TransitionEscrowStatus(e, from, next);
        if hash.Some? {
          lockHash := hash;
        }
      } else {
        assert WithEscrowStatus(rows, e, next) == rows by {
          assert rows.escrows[e := rows.escrows[e]] == rows.escrows;
        }
        thrown := None;
      }
      UpdateTransaction(op, Transaction(if next == E.Funded then Confirmed else Committed, lockHash));
      if next == E.Funded {
        TransitionFundingScope(scope);
      }
    }

    // -------------------------------------------------------------- settlement

    method ReserveSettlement(e: Id, op: Settlement) returns (thrown: Option<Error>)
      requires Valid()
      modifies this
      ensures Valid() && Did(Requests.ReserveSettlement(old(rows), e, op), old(rows), rows, thrown)
    {
      hide Inv, SettlementError;
      if e !in rows.escrows {
        return Some(EscrowNotFound);
      }
      if Requests.ReserveSettlement(rows, e, op).Ok? {
        ReserveSettlementKeeps(rows, e, op);
      }
      thrown := CheckSettlement(rows.escrows[e], op);
      if thrown != None {
        return;
      }
      if Operation(e, KindOf(op)) in rows.transactions {
        return Some(UniqueConstraint);
      }
      thrown := TransitionEscrowStatus(e, rows.escrows[e].status, PendingStatus(op));
      rows := rows.(transactions := rows.transactions[Operation(e, KindOf(op)) := Transaction(TxPending, None)]);
    }

    method CheckSettlement(escrow: Escrow, op: Settlement) returns (thrown: Option<Error>)
      ensures thrown == SettlementError(rows, escrow, op)
      ensures thrown == None ==> escrow.status == E.Funded
      ensures thrown == None && op == ToWorker && ApprovalsAreSanctioned(rows) && KnownScope(rows, escrow.scope) ==>
                Sanctioned(rows, escrow.scope)
    {
      var a, scope := escrow.scope.agreement, escrow.scope;
      if op == ToClient {
        if escrow.status == E.Released || escrow.status == E.ReleasePending {
          return Some(EscrowAlreadyReleased);
        }
        if escrow.status != E.Funded {
          return Some(EscrowNotFunded);
        }
        if a in rows.agreements && rows.agreements[a].status == A.Released {
          return Some(AgreementAlreadyReleased);
        }
        return None;
      }
      hide Sanctioned, ApprovalsAreSanctioned;
      if ApprovalsAreSanctioned(rows) && KnownScope(rows, scope) && ReleaseError(rows, escrow) == None {
        ReleaseNeedsSanction(rows, escrow);
      }
      if escrow.status != E.Funded {
        return Some(EscrowNotFunded);
      }
      if a !in rows.agreements {
        return Some(AgreementNotManaged);
      }
      var status := rows.agreements[a].status;
      if status == A.Approved {
        if scope.milestone == None {
          return None;
        }
        if scope.milestone.value in rows.milestones && rows.milestones[scope.milestone.value].status == M.Approved {
          return None;
        }
      }
      if status == A.Disputed && ReleaseDisputeIn(rows, scope) {
        return None;
      }
      if status == A.Released {
        return Some(EscrowAlreadyReleased);
      }
      if status == A.Refunded {
        return Some(EscrowAlreadyRefunded);
      }
      thrown := Some(EscrowReleaseNotAllowed);
    }

    method FinalizeFailure(e: Id, op: Settlement) returns (thrown: Option<Error>)
      requires Valid()
      modifies this
      ensures Valid() && Did(Requests.FinalizeFailure(old(rows), e, op), old(rows), rows, thrown)
    {
      hide Inv;
      if e !in rows.escrows {
        return Some(EscrowNotFound);
      }
      if rows.escrows[e].status != PendingStatus(op) {
        return Some(SettlementStateChanged);
      }
      FinalizeFailureKeeps(rows, e, op);
      thrown := TransitionEscrowStatus(e, PendingStatus(op), E.Failed);
      var key := Operation(e, KindOf(op));
      if key in rows.transactions {
        UpdateTransaction(key, rows.transactions[key].(status := TxFailed));
      }
    }

    method TransitionMilestoneIfAllowed(scope: Scope, op: Settlement)
      modifies this
      ensures rows == SettleMilestone(old(rows), scope, op)
    {
      if scope.milestone == None || scope.milestone.value !in rows.milestones {
        return;
      }
      var m, to := scope.milestone.value, if op == ToWorker then M.Released else M.Refunded;
      var from := rows.milestones[m].status;
      if from == to || !M.CanTransition(from, to) {
        return;
      }
      var _ := TransitionMilestoneStatus(m, from, to);
    }

    method TransitionAgreementWhenAllEscrowsTerminal(a: Id, op: Settlement)
      modifies this
      ensures rows == RollUp(old(rows), a, op)
    {
      hide AllEscrowsAre, WithAgreementStatus;
      if a !in rows.agreements {
        return;
      }
      var from, to := rows.agreements[a].status, if op == ToWorker then A.Released else A.Refunded;
      if from == to || !AllEscrowsAre(rows, a, TerminalStatus(op)) {
        return;
      }
      if A.CanTransition(from, A.ReleasePending) && to == A.Released {
        TwoHopsToRelease(rows, a);
        var _ := TransitionAgreementStatus(a, from, A.ReleasePending);
        var _ := TransitionAgreementStatus(a, A.ReleasePending, A.Released);
        return;
      }
      if A.CanTransition(from, to) {
        var _ := TransitionAgreementStatus(a, from, to);
      }
    }

    method FinalizeSettlement(e: Id, op: Settlement, answer: E.Status, hash: Option<Hash>) returns (thrown: Option<Error>)
      requires Valid()
      modifies this
      ensures Valid() && Did(Requests.FinalizeSettlement(old(rows), e, op, answer, hash), old(rows), rows, thrown)
    {
      hide Inv, SettleMilestone, RollUp;
      if e !in rows.escrows {
        return Some(EscrowNotFound);
      }
      if rows.escrows[e].status != PendingStatus(op) {
        return Some(SettlementStateChanged);
      }
      FinalizeSettlementKeeps(rows, e, op, answer, hash);
      var scope, immediate, next := rows.escrows[e].scope, rows.escrows[e].rail != Ckb, PendingStatus(op);
      if answer == E.ReconciliationRequired {
        next := E.ReconciliationRequired;
      } else if immediate && answer == TerminalStatus(op) {
        next := TerminalStatus(op);
      }
      thrown := TransitionEscrowStatus(e, PendingStatus(op), next);
      var status := Broadcast;
      if next == E.ReconciliationRequired {
        status := TxReconciliationRequired;
      } else if immediate {
        status := Confirmed;
      }
      UpdateTransaction(Operation(e, KindOf(op)), Transaction(status, hash));
      if next == TerminalStatus(op) {
        TransitionMilestoneIfAllowed(scope, op);
        TransitionAgreementWhenAllEscrowsTerminal(scope.agreement, op);
      }
    }

    // -------------------------------------------------------------- reconciliation

    method Reconcile(op: Operation, hash: Hash, seen: R.Observation) returns (thrown: Option<Error>)
      requires Valid()
      modifies this
      ensures Valid() && Did(Requests.Reconcile(old(rows), op, hash, seen), old(rows), rows, thrown)
    {
      hide Inv, SettleMilestone, RollUp, FundScope;
      if op !in rows.transactions || op.escrow !in rows.escrows {
        return Some(ReconciliationIncomplete);
      }
      if rows.transactions[op].hash != Some(hash) {
        return Some(ReconciliationConflict);
      }
      if Requests.Reconcile(rows, op, hash, seen).Ok? {
        ReconcileKeeps(rows, op, hash, seen);
      }
      var from, scope, row := rows.escrows[op.escrow].status, rows.escrows[op.escrow].scope, rows.transactions[op];
      var view := R.View(from, row.status);
      var reorg := R.IsReorg(view, seen);
      var next := R.EscrowStatusAfter(op.kind, from, seen, reorg);
      if next != from {
        if !E.CanTransition(from, next) {
          return Some(InvalidStateTransition);
        }
        thrown := TransitionEscrowStatus(op.escrow, from, next);
      } else {
        assert WithEscrowStatus(rows, op.escrow, next) == rows by {
          assert rows.escrows[op.escrow := rows.escrows[op.escrow]] == rows.escrows;
        }
        thrown := None;
      }
      UpdateTransaction(op, row.(status := R.TxStatusAfter(seen, reorg)));
      if (reorg && row.status != Reorged) || next == from {
        return;
      }
      if next == E.Funded {
        TransitionFundingScope(scope);
      } else if next == E.Released || next == E.Refunded {
        var done := if next == E.Released then ToWorker else ToClient;
        TransitionMilestoneIfAllowed(scope, done);
        TransitionAgreementWhenAllEscrowsTerminal(scope.agreement, done);
      }
    }
  }

  lemma TwoHopsToRelease(db: Ledger, a: Id)
    requires a in db.agreements
    ensures var once := WithAgreementStatus(db, a, A.ReleasePending);
            a in once.agreements && once.agreements[a].status == A.ReleasePending
            && WithAgreementStatus(once, a, A.Released) == WithAgreementStatus(db, a, A.Released)
  {
    var once := WithAgreementStatus(db, a, A.ReleasePending);
    var row := db.agreements[a].(status := A.Released, settlement := PayoutConfirmed);
    assert once.agreements[a := row] == db.agreements[a := row];
  }

  lemma TermsOf(db: Ledger)
    requires Inv(db)
    ensures OneEscrowPerScope(db)
  {
    hide References, Allocations, SplitsAreExact, ApprovalsAreSanctioned, ReviewsAreExclusive, SettlementsBacked;
  }

  lemma DisputeWalks(db: Ledger, a: Id, m: Id, d: Id)
    requires a in db.agreements && m in db.milestones
    requires AgreementDisputePath(db.agreements[a].status).Some? && MilestoneDisputePath(db.milestones[m].status).Some?
    ensures var added := db.(disputes := db.disputes[d := Dispute(a, m, Open)]);
            var moved := WithAgreementStatus(added, a, A.Disputed);
            && WalkAgreement(added, a, db.agreements[a].status, AgreementDisputePath(db.agreements[a].status).value)
               == Ok(moved)
            && WalkMilestone(moved, m, db.milestones[m].status, MilestoneDisputePath(db.milestones[m].status).value)
               == Ok(WithMilestoneStatus(moved, m, M.Disputed))
  {
    AgreementPathsFollowTable(db.agreements[a].status, ApproveProof, Release);
    MilestonePathsFollowTable(db.milestones[m].status, ApproveProof, Release);
    hide WalkAgreement, WalkMilestone, Walkable, WithAgreementStatus, WithMilestoneStatus;
    WorkWalks(db.(disputes := db.disputes[d := Dispute(a, m, Open)]), a, m,
              AgreementDisputePath(db.agreements[a].status).value, MilestoneDisputePath(db.milestones[m].status).value);
  }

  lemma ResolutionWalks(db: Ledger, d: Id, resolution: Resolution)
    requires d in db.disputes && db.disputes[d].agreement in db.agreements && db.disputes[d].milestone in db.milestones
    requires db.agreements[db.disputes[d].agreement].status == A.Disputed
    requires db.milestones[db.disputes[d].milestone].status == M.Disputed
    ensures var dispute := db.disputes[d];
            var a, m := dispute.agreement, dispute.milestone;
            var closed := db.(disputes := db.disputes[d := dispute.(status := Resolved(resolution))]);
            var agreementPath := AgreementResolutionPath(A.Disputed, resolution);
            var milestonePath := MilestoneResolutionPath(M.Disputed, resolution);
            var moved := if resolution == Release then WithAgreementStatus(closed, a, A.Approved) else closed;
            var done := if resolution == Release then WithMilestoneStatus(moved, m, M.Approved) else moved;
            && agreementPath.Some? && milestonePath.Some?
            && WalkAgreement(closed, a, A.Disputed, agreementPath.value) == Ok(moved)
            && WalkMilestone(moved, m, M.Disputed, milestonePath.value) == Ok(done)
  {
    var dispute := db.disputes[d];
    AgreementPathsFollowTable(A.Disputed, ApproveProof, Release);
    MilestonePathsFollowTable(M.Disputed, ApproveProof, Release);
    if resolution == Release {
      hide WalkAgreement, WalkMilestone, Walkable, WithAgreementStatus, WithMilestoneStatus;
      WorkWalks(db.(disputes := db.disputes[d := dispute.(status := Resolved(resolution))]), dispute.agreement,
                dispute.milestone, [A.Approved], [M.Approved]);
    }
  }

  /** Two walks one after the other, agreement first. */
  lemma WorkWalks(db: Ledger, a: Id, m: Id, agreementPath: seq<A.Status>, milestonePath: seq<M.Status>)
    requires a in db.agreements && m in db.milestones && agreementPath != [] && milestonePath != []
    requires Walkable(AGREEMENT_TABLE, db.agreements[a].status, agreementPath)
    requires Walkable(MILESTONE_TABLE, db.milestones[m].status, milestonePath)
    requires forall s | s in agreementPath :: s !in MONEY
    ensures var moved := WithAgreementStatus(db, a, agreementPath[|agreementPath| - 1]);
            && WalkAgreement(db, a, db.agreements[a].status, agreementPath) == Ok(moved)
            && WalkMilestone(moved, m, db.milestones[m].status, milestonePath)
               == Ok(WithMilestoneStatus(moved, m, milestonePath[|milestonePath| - 1]))
  {
    AgreementWalkEnds(db, a, db.agreements[a].status, agreementPath);
    hide WalkAgreement, WalkMilestone, Walkable;
    MilestoneWalkEnds(WithAgreementStatus(db, a, agreementPath[|agreementPath| - 1]), m, db.milestones[m].status,
                      milestonePath);
  }

  lemma SubmissionWalks(db: Ledger, a: Id, m: Id, p: Id)
    requires a in db.agreements && m in db.milestones
    requires AgreementSubmissionPath(db.agreements[a].status).Some?
    requires MilestoneSubmissionPath(db.milestones[m].status).Some?
    ensures var added := db.(proofs := db.proofs[p := Proof(a, m, Submitted)]);
            var moved := WithAgreementStatus(added, a, A.ProofSubmitted);
            && WalkAgreement(added, a, db.agreements[a].status, AgreementSubmissionPath(db.agreements[a].status).value)
               == Ok(moved)
            && WalkMilestone(moved, m, db.milestones[m].status, MilestoneSubmissionPath(db.milestones[m].status).value)
               == Ok(WithMilestoneStatus(moved, m, M.ProofSubmitted))
  {
    AgreementPathsFollowTable(db.agreements[a].status, ApproveProof, Release);
    MilestonePathsFollowTable(db.milestones[m].status, ApproveProof, Release);
    hide WalkAgreement, WalkMilestone, Walkable, WithAgreementStatus, WithMilestoneStatus;
    WorkWalks(db.(proofs := db.proofs[p := Proof(a, m, Submitted)]), a, m,
              AgreementSubmissionPath(db.agreements[a].status).value,
              MilestoneSubmissionPath(db.milestones[m].status).value);
  }

  /** The proof as the review finds it when the agreement starts to move. */
  function TakenUp(db: Ledger, p: Id): Ledger
    requires p in db.proofs
  {
    if db.proofs[p].status == Submitted
    then db.(proofs := db.proofs[p := db.proofs[p].(status := ProofStatus.UnderReview)])
    else db
  }

  /** The ledger when agreement and milestone have moved and the proof has not. */
  function Judged(db: Ledger, p: Id, decision: Decision): Ledger
    requires p in db.proofs && db.proofs[p].agreement in db.agreements && db.proofs[p].milestone in db.milestones
  {
    WithMilestoneStatus(WithAgreementStatus(TakenUp(db, p), db.proofs[p].agreement, AgreementVerdict(decision)),
                        db.proofs[p].milestone, MilestoneVerdict(decision))
  }

  lemma ReviewWalks(db: Ledger, p: Id, r: Id, decision: Decision)
    requires Requests.ReviewProof(db, p, r, decision).Ok?
    ensures var a, m := db.proofs[p].agreement, db.proofs[p].milestone;
            var moved := WithAgreementStatus(TakenUp(db, p), a, AgreementVerdict(decision));
            && AgreementReviewPath(db.agreements[a].status, decision).Some?
            && MilestoneReviewPath(db.milestones[m].status, decision).Some?
            && WalkAgreement(TakenUp(db, p), a, db.agreements[a].status,
                             AgreementReviewPath(db.agreements[a].status, decision).value) == Ok(moved)
            && WalkMilestone(moved, m, db.milestones[m].status,
                             MilestoneReviewPath(db.milestones[m].status, decision).value)
               == Ok(Judged(db, p, decision))
  {
    var a, m := db.proofs[p].agreement, db.proofs[p].milestone;
    AgreementPathsFollowTable(db.agreements[a].status, decision, Release);
    MilestonePathsFollowTable(db.milestones[m].status, decision, Release);
    ReviewPathsEnd(db.agreements[a].status, db.milestones[m].status, decision);
    hide WalkAgreement, WalkMilestone, Walkable, AgreementReviewPath, MilestoneReviewPath, WithAgreementStatus,
         WithMilestoneStatus, AgreementVerdict, MilestoneVerdict;
    WorkWalks(TakenUp(db, p), a, m, AgreementReviewPath(db.agreements[a].status, decision).value,
              MilestoneReviewPath(db.milestones[m].status, decision).value);
  }

  lemma ReviewEnds(db: Ledger, p: Id, r: Id, decision: Decision)
    requires Requests.ReviewProof(db, p, r, decision).Ok?
    ensures var judged := Judged(db, p, decision);
            && judged.proofs == TakenUp(db, p).proofs
            && Requests.ReviewProof(db, p, r, decision).value
               == judged.(proofs := judged.proofs[p := judged.proofs[p].(status := ProofStatusFor(decision))],
                          reviews := judged.reviews[r := Review(p, decision)])
  {
    hide AgreementVerdict, MilestoneVerdict, SettlementFor;
    assert TakenUp(db, p).proofs[p := db.proofs[p].(status := ProofStatusFor(decision))]
           == db.proofs[p := db.proofs[p].(status := ProofStatusFor(decision))];
  }

  lemma ReviewPathsEnd(a: A.Status, m: M.Status, decision: Decision)
    requires a in {A.ProofSubmitted, A.UnderReview} && m in {M.ProofSubmitted, M.UnderReview}
    ensures var agreementPath := AgreementReviewPath(a, decision);
            && agreementPath.Some? && agreementPath.value != []
            && agreementPath.value[|agreementPath.value| - 1] == AgreementVerdict(decision)
            && forall s | s in agreementPath.value :: s !in MONEY
    ensures var milestonePath := MilestoneReviewPath(m, decision);
            && milestonePath.Some? && milestonePath.value != []
            && milestonePath.value[|milestonePath.value| - 1] == MilestoneVerdict(decision)
  {
  }

  lemma AcceptingKeeps(db: Ledger, a: Id)
    requires Inv(db) && a in db.agreements && db.agreements[a].status == A.Draft
    ensures Inv(WithAgreementStatus(db, a, A.Accepted))
    ensures var once := WithAgreementStatus(db, a, A.PendingAcceptance);
            a in once.agreements && once.agreements[a].status == A.PendingAcceptance
            && WithAgreementStatus(once, a, A.Accepted) == WithAgreementStatus(db, a, A.Accepted)
  {
    hide Inv;
    var once := WithAgreementStatus(db, a, A.PendingAcceptance);
    assert once.agreements[a := db.agreements[a].(status := A.Accepted)]
           == db.agreements[a := db.agreements[a].(status := A.Accepted)];
    hide WithAgreementStatus;
    AgreementMoveKeeps(db, a, A.Accepted);
  }

  lemma MovingKeeps(db: Ledger, a: Id, to: A.Status)
    requires Inv(db) && a in db.agreements && to in {A.FundingRequired, A.Cancelled}
    requires A.CanTransition(db.agreements[a].status, to)
    ensures Inv(WithAgreementStatus(db, a, to))
  {
    hide Inv, WithAgreementStatus;
    AgreementMoveKeeps(db, a, to);
  }
}
