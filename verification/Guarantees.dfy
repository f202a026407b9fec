/** What holds in every state that any interleaving of requests, crashes and chain observations reaches. */
module Guarantees {
  import opened Results
  import opened Lifecycle
  import opened Ledger
  import opened Sums
  import opened Requests
  import opened Invariants
  import opened World
  import opened Payouts
  import A = AgreementMachine
  import E = EscrowMachine
  import R = Reconciliation

  // ---------------------------------------------------------------- who was paid

  lemma {:induction false} RunKeepsPayouts(w: World, steps: seq<Step>)
    requires PayoutInv(w)
    ensures PayoutInv(Run(w, steps))
  {
    hide PayoutInv, Next;
    if steps != [] {
      RunKeepsPayouts(w, steps[..|steps| - 1]);
      NextKeepsPayouts(Run(w, steps[..|steps| - 1]), steps[|steps| - 1]);
    }
  }

  lemma NobodyIsPaidAtStart()
    ensures PayoutInv(START)
  {
  }

  /**
   Off the chain, an escrow has at most one settlement call carried out, the
   call of the status it has; and it has one exactly once it is settled, or on
   its way.
   */
  lemma {:induction false} OnePayoutPerEscrow(steps: seq<Step>, e: Id)
    ensures var w := Run(START, steps);
            var made := CallsFor(w.calls, e);
            && (e !in w.db.escrows ==> made == [])
            && (e in w.db.escrows && w.db.escrows[e].rail != Ckb ==>
                  && |made| <= 1
                  && w.db.escrows[e].status != E.ReconciliationRequired
                  && (made == [ToWorker] ==> w.db.escrows[e].status in {E.ReleasePending, E.Released})
                  && (made == [ToClient] ==> w.db.escrows[e].status in {E.RefundPending, E.Refunded})
                  && (w.db.escrows[e].status == E.Released ==> made == [ToWorker])
                  && (w.db.escrows[e].status == E.Refunded ==> made == [ToClient]))
  {
    NobodyIsPaidAtStart();
    RunKeepsPayouts(START, steps);
    hide Run, CallsFor, SettlingOn;
    PaidHere(Run(START, steps), e);
  }

  /** Released or refunded, on whatever rail. */
  ghost predicate Settled(w: World, e: Id) {
    e in w.db.escrows && w.db.escrows[e].status in E.TERMINAL
  }

  ghost predicate SettledOffChain(w: World, e: Id) {
    Settled(w, e) && w.db.escrows[e].rail != Ckb
  }

  /** A look at the chain that finds a confirmation gone on which the escrow's row relies. */
  ghost predicate ReorgLook(w: World, step: Step, e: Id) {
    && step.LookAtChain? && step.operation.escrow == e && e in w.db.escrows && w.db.escrows[e].rail == Ckb
    && step.operation in w.db.transactions && w.db.transactions[step.operation].hash == Some(step.seenHash)
    && R.IsReorg(R.View(w.db.escrows[e].status, w.db.transactions[step.operation].status), step.seen)
  }

  /** One step leaves a settled escrow alone, unless it reports a reorganisation; and then the escrow needs reconciling. */
  lemma SettledStep(w: World, step: Step, e: Id)
    requires Settled(w, e)
    ensures RowOf(Next(w, step).db, e)
            == if ReorgLook(w, step, e) then Some(w.db.escrows[e].(status := E.ReconciliationRequired)) else RowOf(w.db, e)
  {
    hide *;
    NoLook(w, step, e);
    match step {
      case FinishCreation(r, status, hash) => StayThroughCreation(w, r, status, hash, e);
      case FinishFunding(r, status, hash) => StayThroughFunding(w, r, status, hash, e);
      case FinishSettlement(r) => StayThroughSettlement(w, r, e);
      case LookAtChain(op, hash, seen) => StayThroughLook(w, op, hash, seen, e);
      case BeginSettlement(r, f, op) => StayThroughBeginning(w, step, e);
      case BeginCreation(r, f, scope, sum, currency, rail) => StayThroughBeginning(w, step, e);
      case BeginFunding(r, f) => StayThroughBeginning(w, step, e);
      case AbandonCreation(r) => StayThroughWaiting(w, step, e);
      case AdapterAnswers(r, status, hash) => StayThroughWaiting(w, step, e);
      case AdapterThrows(r) => StayThroughWaiting(w, step, e);
      case Crash(r) => StayThroughWaiting(w, step, e);
      case _ => StayThroughWork(w, step, e);
    }
  }

  lemma StayThroughBeginning(w: World, step: Step, e: Id)
    requires Settled(w, e) && (step.BeginCreation? || step.BeginFunding? || step.BeginSettlement?)
    ensures RowOf(Next(w, step).db, e) == RowOf(w.db, e)
  {
    hide SettlementError, TerminalEscrows, ScopeError, AmountError;
    if step.BeginSettlement? && ReserveSettlement(w.db, step.e, step.op).Ok? {
      ReservationMovesRow(w.db, step.e, step.op);
    }
  }

  lemma StayThroughWaiting(w: World, step: Step, e: Id)
    requires Settled(w, e) && (step.AbandonCreation? || step.AdapterAnswers? || step.AdapterThrows? || step.Crash?)
    ensures RowOf(Next(w, step).db, e) == RowOf(w.db, e)
  {
    hide CreateAgreement, AcceptAgreement, MoveAgreement, CreateMilestone, SubmitProof, ReviewProof, OpenDispute,
         ResolveDispute, FinalizeCreation, FinalizeFunding, FinalizeFailure, FinalizeSettlement, Reconcile,
         ReserveCreation, ReserveSettlement;
  }

  lemma NoLook(w: World, step: Step, e: Id)
    ensures !step.LookAtChain? ==> !ReorgLook(w, step, e)
  {
  }

  lemma StayThroughWork(w: World, step: Step, e: Id)
    requires step.NewAgreement? || step.Accept? || step.RequireFunding? || step.Cancel? || step.NewMilestone?
             || step.Submit? || step.Judge? || step.Contest? || step.Resolve?
    ensures RowOf(Next(w, step).db, e) == RowOf(w.db, e)
  {
    hide Next;
    Payouts.WorkLeavesEscrows(w, step);
  }

  lemma StayThroughCreation(w: World, r: Id, status: E.Status, hash: Option<Hash>, e: Id)
    requires Settled(w, e)
    ensures RowOf(Next(w, FinishCreation(r, status, hash)).db, e) == RowOf(w.db, e)
  {
    hide FinalizeCreation;
    if InFlight(w, r) && FinalizeCreation(w.db, w.flights[r].escrow, status, hash).Ok? {
      CreationMovesRow(w.db, w.flights[r].escrow, status, hash);
    }
  }

  lemma StayThroughFunding(w: World, r: Id, status: E.Status, hash: Option<Hash>, e: Id)
    requires Settled(w, e)
    ensures RowOf(Next(w, FinishFunding(r, status, hash)).db, e) == RowOf(w.db, e)
  {
    hide FundScope, FinalizeFunding, RowMoved;
    if InFlight(w, r) && FinalizeFunding(w.db, w.flights[r].escrow, status, hash).Ok? {
      var f := w.flights[r].escrow;
      FundingMovesRow(w.db, f, status, hash);
      if w.db.escrows[f].status != E.Funded {
        MovedRow(w.db, FinalizeFunding(w.db, f, status, hash).value, f, status);
      }
    }
  }

  lemma StayThroughSettlement(w: World, r: Id, e: Id)
    requires Settled(w, e)
    ensures RowOf(Next(w, FinishSettlement(r)).db, e) == RowOf(w.db, e)
  {
    hide Settle, RowMoved;
    if InFlight(w, r) && w.flights[r].Settling? && w.flights[r].answer != Unanswered {
      var flight := w.flights[r];
      if Outcome(w.db, flight).Ok? {
        OutcomeMovesRow(w.db, flight);
        MovedRow(w.db, Outcome(w.db, flight).value, flight.escrow,
                 StatusAfter(w.db.escrows[flight.escrow].rail, flight));
      }
    }
  }

  lemma StayThroughLook(w: World, op: Operation, hash: Hash, seen: R.Observation, e: Id)
    requires Settled(w, e)
    ensures var step := LookAtChain(op, hash, seen);
            RowOf(Next(w, step).db, e)
            == if ReorgLook(w, step, e) then Some(w.db.escrows[e].(status := E.ReconciliationRequired)) else RowOf(w.db, e)
  {
    hide Reconcile, R.Observe, R.IsReorg, RowMoved;
    var done := Reconcile(w.db, op, hash, seen);
    if op in w.db.transactions && op.escrow == e {
      R.SettledLook(op.kind, R.View(w.db.escrows[e].status, w.db.transactions[op].status), seen);
    }
    if done.Ok? {
      ObservationMovesRow(w.db, op, hash, seen);
      MovedRow(w.db, done.value, op.escrow, Looked(w.db, op, seen).view.escrow);
    }
    LookSucceeds(w.db, op, hash, seen);
  }

  /** The transaction of a look is refused only for a missing row, another hash, or a forbidden transition. */
  lemma LookSucceeds(db: Ledger, op: Operation, hash: Hash, seen: R.Observation)
    ensures Reconcile(db, op, hash, seen).Ok?
            <==> op in db.transactions && op.escrow in db.escrows && db.transactions[op].hash == Some(hash)
                 && Looked(db, op, seen).Applied?
  {
    hide R.Observe, Settle, FundScope;
  }

  /** On every rail: a settled escrow keeps its row until, if ever, a look reports a reorganisation. */
  lemma {:induction false} SettledUntilReorg(w: World, steps: seq<Step>, e: Id)
    requires Settled(w, e)
    ensures RowOf(Run(w, steps).db, e) == RowOf(w.db, e)
            || exists k | 0 <= k < |steps| ::
                 ReorgLook(Run(w, steps[..k]), steps[k], e) && RowOf(Run(w, steps[..k]).db, e) == RowOf(w.db, e)
  {
    hide Next, ReorgLook;
    if steps != [] {
      var front, last := steps[..|steps| - 1], |steps| - 1;
      SettledUntilReorg(w, front, e);
      if k :| 0 <= k < |front| && ReorgLook(Run(w, front[..k]), front[k], e)
              && RowOf(Run(w, front[..k]).db, e) == RowOf(w.db, e) {
        assert front[..k] == steps[..k] && front[k] == steps[k];
      } else {
        SettledStep(Run(w, front), steps[last], e);
        assert steps[..last] == front;
      }
    }
  }

  /** Paid out once is paid out for good: whatever happens next, the row and its one call stay. */
  lemma {:induction false} PayoutsAreFinal(w: World, steps: seq<Step>, e: Id)
    requires PayoutInv(w) && SettledOffChain(w, e)
    ensures RowOf(Run(w, steps).db, e) == RowOf(w.db, e)
    ensures CallsFor(Run(w, steps).calls, e) == CallsFor(w.calls, e)
  {
    hide PayoutInv, Next, CallsFor, SettlingOn;
    if steps != [] {
      var before := Run(w, steps[..|steps| - 1]);
      PayoutsAreFinal(w, steps[..|steps| - 1], e);
      SettledStep(before, steps[|steps| - 1], e);
      RunKeepsPayouts(w, steps);
      PaidHere(w, e);
      PaidHere(Run(w, steps), e);
    }
  }

  lemma {:induction false} RunSplits(w: World, steps: seq<Step>, i: nat)
    requires i <= |steps|
    ensures Run(w, steps) == Run(Run(w, steps[..i]), steps[i..])
  {
    hide Next;
    if i < |steps| {
      var front := steps[..|steps| - 1];
      RunSplits(w, front, i);
      assert front[..i] == steps[..i];
      assert steps[i..][..|steps[i..]| - 1] == front[i..];
    } else {
      assert steps[..i] == steps;
    }
  }

  /** No escrow off the chain is released at one moment of a run and refunded at another. */
  lemma NeverReleasedAndRefunded(steps: seq<Step>, i: nat, j: nat, e: Id)
    requires i <= |steps| && j <= |steps|
    requires SettledOffChain(Run(START, steps[..i]), e) && SettledOffChain(Run(START, steps[..j]), e)
    ensures RowOf(Run(START, steps[..i]).db, e) == RowOf(Run(START, steps[..j]).db, e)
  {
    hide Run, PayoutInv;
    if i <= j {
      assert steps[..j][..i] == steps[..i];
      SettledEarlier(steps[..j], i, e);
    } else {
      assert steps[..i][..j] == steps[..j];
      SettledEarlier(steps[..i], j, e);
    }
  }

  lemma SettledEarlier(steps: seq<Step>, i: nat, e: Id)
    requires i <= |steps| && SettledOffChain(Run(START, steps[..i]), e)
    ensures RowOf(Run(START, steps).db, e) == RowOf(Run(START, steps[..i]).db, e)
  {
    hide Run, PayoutInv;
    NobodyIsPaidAtStart();
    RunKeepsPayouts(START, steps[..i]);
    PayoutsAreFinal(Run(START, steps[..i]), steps[i..], e);
    RunSplits(START, steps, i);
  }

  // ---------------------------------------------------------------- approval before payout

  lemma SanctionOf(db: Ledger, e: Id)
    requires SettlementsBacked(db) && e in db.escrows && db.escrows[e].status in {E.ReleasePending, E.Released}
    ensures Sanctioned(db, db.escrows[e].scope)
  {
    assert Reserved(db, e, ToWorker);
  }

  /** In the scope, a proof was accepted or a dispute resolved to release; a milestone counts its own only. */
  ghost predicate AcceptedOrResolved(db: Ledger, scope: Scope) {
    || (exists p | p in db.proofs ::
          && db.proofs[p].status == Accepted && db.proofs[p].agreement == scope.agreement
          && (scope.milestone == None || scope.milestone == Some(db.proofs[p].milestone)))
    || (exists d | d in db.disputes ::
          && db.disputes[d].status == Resolved(Release) && db.disputes[d].agreement == scope.agreement
          && (scope.milestone == None || scope.milestone == Some(db.disputes[d].milestone)))
  }

  lemma SanctionMeans(db: Ledger, scope: Scope)
    ensures Sanctioned(db, scope) ==> AcceptedOrResolved(db, scope)
  {
    if p :| p in db.proofs && Accepts(db.proofs[p], scope) {
      assert db.proofs[p].status == Accepted;
    }
    if d :| d in db.disputes && ResolvesToRelease(db.disputes[d], scope) {
      assert db.disputes[d].status == Resolved(Release);
    }
  }

  /** An escrow on its way to the worker, on any rail, has an accepted proof or a release-resolved dispute in its scope. */
  lemma {:induction false} NoPayoutWithoutApproval(steps: seq<Step>, e: Id)
    ensures var db := Run(START, steps).db;
            e in db.escrows && db.escrows[e].status in {E.ReleasePending, E.Released} ==>
              AcceptedOrResolved(db, db.escrows[e].scope)
  {
    ReachableLedger(steps);
    hide Run;
    var db := Run(START, steps).db;
    BackedParts(db);
    if e in db.escrows && db.escrows[e].status in {E.ReleasePending, E.Released} {
      SanctionOf(db, e);
      SanctionMeans(db, db.escrows[e].scope);
    }
  }

  lemma BackedParts(db: Ledger)
    requires Inv(db)
    ensures SettlementsBacked(db)
  {
    hide Terms, ApprovalsAreSanctioned, ReviewsAreExclusive, SettlementsBacked;
  }

  // ---------------------------------------------------------------- money

  lemma TermsParts(db: Ledger)
    requires Inv(db)
    ensures References(db) && Allocations(db) && OneEscrowPerScope(db) && SplitsAreExact(db)
  {
    hide References, Allocations, OneEscrowPerScope, SplitsAreExact, ApprovalsAreSanctioned, ReviewsAreExclusive,
         SettlementsBacked;
  }

  /** The milestones of an agreement never promise more than the agreement does. */
  lemma {:induction false} MilestonesFit(steps: seq<Step>, a: Id)
    ensures var db := Run(START, steps).db;
            a in db.agreements ==> Total(MilestoneAmounts(db, a)) <= db.agreements[a].amount
  {
    ReachableLedger(steps);
    hide Run, Total;
    TermsParts(Run(START, steps).db);
  }

  function MilestoneOfEscrow(db: Ledger, a: Id): map<Id, Id> {
    map e | e in db.escrows && db.escrows[e].scope.agreement == a && db.escrows[e].scope.milestone.Some?
      :: db.escrows[e].scope.milestone.value
  }

  lemma EscrowsFitMilestones(db: Ledger, a: Id)
    requires Allocations(db) && OneEscrowPerScope(db)
    ensures Total(MilestoneEscrowAmounts(db, a)) <= Total(MilestoneAmounts(db, a))
  {
    hide Total;
    var small, big, into := MilestoneEscrowAmounts(db, a), MilestoneAmounts(db, a), MilestoneOfEscrow(db, a);
    forall e | e in small ensures into[e] in big && small[e] <= big[into[e]] {
      assert Fits(db, db.escrows[e]);
    }
    forall e, f | e in small && f in small && e != f ensures into[e] != into[f] {
      assert db.escrows[e].scope == Scope(a, Some(into[e])) && db.escrows[f].scope == Scope(a, Some(into[f]));
    }
    TotalDominated(small, big, into);
  }

  /** All the milestone escrows of an agreement, live, released or refunded, hold at most its amount. */
  lemma {:induction false} MilestoneEscrowsFit(steps: seq<Step>, a: Id)
    ensures var db := Run(START, steps).db;
            a in db.agreements ==> Total(MilestoneEscrowAmounts(db, a)) <= db.agreements[a].amount
  {
    ReachableLedger(steps);
    hide Run, Total;
    var db := Run(START, steps).db;
    TermsParts(db);
    EscrowsFitMilestones(db, a);
  }

  /** The escrow on the agreement as a whole, if there is one. */
  function WholeEscrows(db: Ledger, a: Id): map<Id, nat> {
    map e | e in db.escrows && db.escrows[e].scope == Scope(a, None) :: db.escrows[e].amount
  }

  lemma EscrowsSplitByScope(db: Ledger, a: Id)
    requires a in db.agreements && Allocations(db) && OneEscrowPerScope(db)
    ensures Total(EscrowAmounts(db, a)) <= Total(MilestoneEscrowAmounts(db, a)) + db.agreements[a].amount
  {
    hide Total;
    if e :| e in db.escrows && db.escrows[e].scope == Scope(a, None) {
      TotalSplit(EscrowAmounts(db, a), e);
      assert EscrowAmounts(db, a) - {e} == MilestoneEscrowAmounts(db, a) by {
        forall f | f in db.escrows && f != e && db.escrows[f].scope.agreement == a
          ensures db.escrows[f].scope.milestone.Some?
        {
          assert db.escrows[f].scope == Scope(a, db.escrows[f].scope.milestone);
        }
      }
      assert Fits(db, db.escrows[e]);
    } else {
      assert EscrowAmounts(db, a) == MilestoneEscrowAmounts(db, a) by {
        forall f | f in db.escrows && db.escrows[f].scope.agreement == a ensures db.escrows[f].scope.milestone.Some? {
          assert db.escrows[f].scope == Scope(a, db.escrows[f].scope.milestone);
        }
      }
    }
  }

  /** As long as an agreement is escrowed as a whole only, or by milestones only, its escrows hold at most its amount. */
  lemma {:induction false} EscrowsFitOnce(steps: seq<Step>, a: Id)
    ensures var db := Run(START, steps).db;
            a in db.agreements && (WholeEscrows(db, a) == map[] || MilestoneEscrowAmounts(db, a) == map[]) ==>
              Total(EscrowAmounts(db, a)) <= db.agreements[a].amount
  {
    ReachableLedger(steps);
    hide Run, Total;
    var db := Run(START, steps).db;
    TermsParts(db);
    if a in db.agreements && (WholeEscrows(db, a) == map[] || MilestoneEscrowAmounts(db, a) == map[]) {
      EscrowsFitMilestones(db, a);
      EscrowsSplitByScope(db, a);
      EscrowsOfOneKind(db, a);
    }
  }

  lemma EscrowsOfOneKind(db: Ledger, a: Id)
    ensures WholeEscrows(db, a) == map[] ==> EscrowAmounts(db, a) == MilestoneEscrowAmounts(db, a)
    ensures Total<Id>(map[]) == 0
  {
    if WholeEscrows(db, a) == map[] {
      forall e | e in db.escrows && db.escrows[e].scope.agreement == a ensures db.escrows[e].scope.milestone.Some? {
        assert e !in WholeEscrows(db, a);
        assert db.escrows[e].scope == Scope(a, db.escrows[e].scope.milestone);
      }
    }
  }

  /** Counting an escrow on the whole agreement as well, at most twice its amount is ever held. */
  lemma {:induction false} EscrowsFitTwice(steps: seq<Step>, a: Id)
    ensures var db := Run(START, steps).db;
            a in db.agreements ==> Total(EscrowAmounts(db, a)) <= 2 * db.agreements[a].amount
  {
    ReachableLedger(steps);
    hide Run, Total;
    var db := Run(START, steps).db;
    TermsParts(db);
    if a in db.agreements {
      EscrowsFitMilestones(db, a);
      EscrowsSplitByScope(db, a);
    }
  }

  /** A settlement scope has at most one escrow row, whatever became of it. */
  lemma {:induction false} OneEscrowRowPerScope(steps: seq<Step>, scope: Scope)
    ensures AtMostOne(set e | e in Run(START, steps).db.escrows && Run(START, steps).db.escrows[e].scope == scope)
  {
    ReachableLedger(steps);
    hide Run;
    TermsParts(Run(START, steps).db);
  }

  /** A dispute that was settled by a split shares out exactly the escrow of its milestone. */
  lemma {:induction false} SplitsShareTheEscrow(steps: seq<Step>, d: Id)
    ensures var db := Run(START, steps).db;
            d in db.disputes && db.disputes[d].status.Resolved? && db.disputes[d].status.resolution.Split? ==>
              exists e | e in db.escrows ::
                && db.escrows[e].scope == Scope(db.disputes[d].agreement, Some(db.disputes[d].milestone))
                && db.escrows[e].amount == db.disputes[d].status.resolution.workerAmount
                                           + db.disputes[d].status.resolution.clientAmount
  {
    ReachableLedger(steps);
    hide Run;
    var db := Run(START, steps).db;
    TermsParts(db);
    hide References, Allocations, OneEscrowPerScope;
    SplitIsExact(db, d);
    hide SplitsAreExact;
  }

  lemma SplitIsExact(db: Ledger, d: Id)
    requires SplitsAreExact(db)
    ensures d in db.disputes && db.disputes[d].status.Resolved? && db.disputes[d].status.resolution.Split? ==>
              exists e | e in db.escrows ::
                && db.escrows[e].scope == Scope(db.disputes[d].agreement, Some(db.disputes[d].milestone))
                && db.escrows[e].amount == db.disputes[d].status.resolution.workerAmount
                                           + db.disputes[d].status.resolution.clientAmount
  {
    if d in db.disputes && db.disputes[d].status.Resolved? && db.disputes[d].status.resolution.Split? {
      var e :| SharesOut(db, db.disputes[d], e);
    }
  }

  // ---------------------------------------------------------------- reviews

  lemma ReviewParts(db: Ledger)
    requires Inv(db)
    ensures References(db) && OneReviewAtATime(db) && OneVerdictPerProof(db)
  {
    hide References, Allocations, OneEscrowPerScope, SplitsAreExact, ApprovalsAreSanctioned, OneReviewAtATime,
         NoneUnderReview, OneVerdictPerProof, SettlementsBacked;
  }

  /**
   At most one proof of an agreement waits for a verdict: one, on the one
   submitted milestone, while the agreement says so; none while there is work
   to do.
   */
  lemma {:induction false} OneProofWaits(steps: seq<Step>, a: Id)
    ensures var db := Run(START, steps).db;
            a in db.agreements ==>
              var status := db.agreements[a].status;
              && AtMostOne(Unreviewed(db, a))
              && (status == A.ProofSubmitted ==>
                    exists p | p in db.proofs ::
                      Unreviewed(db, a) == {p} && SubmittedMilestones(db, a) == {db.proofs[p].milestone})
              && (status in {A.Funded, A.InProgress, A.Rejected} ==>
                    Unreviewed(db, a) == {} && SubmittedMilestones(db, a) == {})
  {
    ReachableLedger(steps);
    hide Run;
    var db := Run(START, steps).db;
    ReviewParts(db);
    if a in db.agreements {
      assert ReviewState(db, a);
      QuietOnes();
    }
  }

  lemma QuietOnes()
    ensures {A.Funded, A.InProgress, A.Rejected} <= QUIET
  {
  }

  /** A proof is judged at most once, and keeps the status of that verdict. */
  lemma {:induction false} OneVerdictEach(steps: seq<Step>, p: Id)
    ensures var db := Run(START, steps).db;
            var verdicts := VerdictsOn(db, p);
            && AtMostOne(verdicts)
            && (p in db.proofs ==> (verdicts == {} <==> db.proofs[p].status == Submitted))
            && forall r | r in verdicts ::
                 p in db.proofs && db.proofs[p].status == match db.reviews[r].decision
                                                          case ApproveProof => Accepted
                                                          case RejectProof => ProofStatus.Rejected
                                                          case RequestChanges => NeedsChanges
  {
    ReachableLedger(steps);
    hide Run;
    var db := Run(START, steps).db;
    ReviewParts(db);
    hide References, OneReviewAtATime;
    VerdictsOf(db, p);
    hide OneVerdictPerProof;
  }

  function VerdictsOn(db: Ledger, p: Id): set<Id> {
    set r | r in db.reviews && db.reviews[r].proof == p
  }

  lemma VerdictsOf(db: Ledger, p: Id)
    requires OneVerdictPerProof(db)
    ensures AtMostOne(VerdictsOn(db, p))
    ensures p in db.proofs ==> (VerdictsOn(db, p) == {} <==> db.proofs[p].status == Submitted)
    ensures forall r | r in VerdictsOn(db, p) :: p in db.proofs && db.proofs[p].status == ProofStatusFor(db.reviews[r].decision)
  {
    if p in db.proofs && db.proofs[p].status != Submitted {
      var r :| r in db.reviews && db.reviews[r].proof == p;
      assert r in VerdictsOn(db, p);
    }
  }
}
