/** On every rail, chain included: an escrow is released at most once and refunded at most once. */
module Calls {
  import opened Results
  import opened Ledger
  import opened Sums
  import opened Requests
  import opened Invariants
  import opened World
  import opened Payouts
  import Guarantees
  import A = AgreementMachine
  import E = EscrowMachine
  import R = Reconciliation

  /** The requests that reserved this settlement and have no answer yet. */
  function Owners(flights: map<Id, Flight>, e: Id, op: Settlement): set<Id> {
    set r | r in flights && flights[r] == Settling(e, op, Unanswered)
  }

  /** How often this settlement was carried out. */
  function Carried(calls: seq<Call>, e: Id, op: Settlement): nat {
    multiset(calls)[Call(e, op)]
  }

  ghost predicate Once(w: World, e: Id, op: Settlement) {
    var owners, carried := Owners(w.flights, e, op), Carried(w.calls, e, op);
    && AtMostOne(owners) && carried <= 1
    && (owners != {} ==> carried == 0)
    && (Operation(e, KindOf(op)) !in w.db.transactions ==> owners == {} && carried == 0)
  }

  ghost predicate OnceEach(w: World) {
    forall e, op :: Once(w, e, op)
  }

  // ---------------------------------------------------------------- settlement rows are never deleted

  ghost predicate SettlementRowsStay(db: Ledger, after: Ledger) {
    forall op | op in db.transactions && op.kind != LockTx :: op in after.transactions
  }

  lemma FundScopeLeavesTransactions(db: Ledger, scope: Scope)
    ensures FundScope(db, scope).transactions == db.transactions
  {
    hide SettlementFor;
  }

  lemma SettleLeavesTransactions(db: Ledger, scope: Scope, op: Settlement)
    ensures Settle(db, scope, op).transactions == db.transactions
  {
    assert SettleMilestone(db, scope, op).transactions == db.transactions;
    hide SettleMilestone, AllEscrowsAre, RollUpTarget;
    assert forall moved: Ledger, a :: RollUp(moved, a, op).transactions == moved.transactions;
  }

  lemma WorkLeavesTransactions(w: World, step: Step)
    requires step.NewAgreement? || step.Accept? || step.RequireFunding? || step.Cancel? || step.NewMilestone?
             || step.Submit? || step.Judge? || step.Contest? || step.Resolve?
    ensures SettlementRowsStay(w.db, Next(w, step).db)
    ensures Next(w, step).flights == w.flights && Next(w, step).calls == w.calls
  {
    hide Allocated, UnresolvedDispute, SettlementFor, CheckSplit, A.CanTransition, AgreementVerdict, MilestoneVerdict;
    assert Next(w, step).db.transactions == w.db.transactions;
  }

  lemma FundingLeavesRows(db: Ledger, e: Id, next: E.Status, hash: Option<Hash>)
    requires FinalizeFunding(db, e, next, hash).Ok?
    ensures SettlementRowsStay(db, FinalizeFunding(db, e, next, hash).value)
  {
    hide FundScope;
    forall moved: Ledger ensures FundScope(moved, db.escrows[e].scope).transactions == moved.transactions {
      FundScopeLeavesTransactions(moved, db.escrows[e].scope);
    }
  }

  lemma SettlementLeavesRows(db: Ledger, e: Id, op: Settlement, answer: E.Status, hash: Option<Hash>)
    requires FinalizeSettlement(db, e, op, answer, hash).Ok?
    ensures SettlementRowsStay(db, FinalizeSettlement(db, e, op, answer, hash).value)
  {
    hide Settle;
    forall moved: Ledger ensures Settle(moved, db.escrows[e].scope, op).transactions == moved.transactions {
      SettleLeavesTransactions(moved, db.escrows[e].scope, op);
    }
  }

  lemma ObservationLeavesRows(db: Ledger, op: Operation, hash: Hash, seen: R.Observation)
    requires Reconcile(db, op, hash, seen).Ok?
    ensures SettlementRowsStay(db, Reconcile(db, op, hash, seen).value)
  {
    hide Settle, FundScope, R.Observe;
    forall moved: Ledger, scope
      ensures FundScope(moved, scope).transactions == moved.transactions
      ensures Settle(moved, scope, ToWorker).transactions == moved.transactions
      ensures Settle(moved, scope, ToClient).transactions == moved.transactions
    {
      FundScopeLeavesTransactions(moved, scope);
      SettleLeavesTransactions(moved, scope, ToWorker);
      SettleLeavesTransactions(moved, scope, ToClient);
    }
  }

  lemma ReservationAddsRow(db: Ledger, e: Id, op: Settlement)
    requires ReserveSettlement(db, e, op).Ok?
    ensures Operation(e, KindOf(op)) !in db.transactions
    ensures SettlementRowsStay(db, ReserveSettlement(db, e, op).value)
    ensures Operation(e, KindOf(op)) in ReserveSettlement(db, e, op).value.transactions
  {
  }

  lemma FailureLeavesRows(db: Ledger, e: Id, op: Settlement)
    requires FinalizeFailure(db, e, op).Ok?
    ensures SettlementRowsStay(db, FinalizeFailure(db, e, op).value)
  {
  }

  lemma CreationLeavesRows(db: Ledger, e: Id, next: E.Status, hash: Option<Hash>)
    ensures SettlementRowsStay(db, DiscardCreation(db, e))
    ensures FinalizeCreation(db, e, next, hash).Ok? ==> SettlementRowsStay(db, FinalizeCreation(db, e, next, hash).value)
  {
  }

  lemma ReserveCreationLeavesRows(db: Ledger, e: Id, scope: Scope, amount: int, currency: string, rail: Rail)
    requires ReserveCreation(db, e, scope, amount, currency, rail).Ok?
    ensures SettlementRowsStay(db, ReserveCreation(db, e, scope, amount, currency, rail).value)
  {
  }

  lemma NextLeavesRows(w: World, step: Step)
    ensures SettlementRowsStay(w.db, Next(w, step).db)
  {
    hide SettlementRowsStay, FinalizeCreation, FinalizeFunding, FinalizeFailure, FinalizeSettlement, Reconcile,
         DiscardCreation, ReserveCreation, ReserveSettlement;
    var db := w.db;
    RowsStayRefl(db);
    match step {
      case BeginCreation(r, e, scope, sum, currency, rail) =>
        if ReserveCreation(db, e, scope, sum, currency, rail).Ok? {
          ReserveCreationLeavesRows(db, e, scope, sum, currency, rail);
        }
      case FinishCreation(r, status, hash) =>
        if r in w.flights { CreationLeavesRows(db, w.flights[r].escrow, status, hash); }
      case AbandonCreation(r) =>
        if r in w.flights { CreationLeavesRows(db, w.flights[r].escrow, E.Failed, None); }
      case FinishFunding(r, status, hash) =>
        if r in w.flights && FinalizeFunding(db, w.flights[r].escrow, status, hash).Ok? {
          FundingLeavesRows(db, w.flights[r].escrow, status, hash);
        }
      case BeginSettlement(r, e, op) => if ReserveSettlement(db, e, op).Ok? { ReservationAddsRow(db, e, op); }
      case FinishSettlement(r) => if r in w.flights && w.flights[r].Settling? { LandingLeavesRows(db, w.flights[r]); }
      case LookAtChain(op, hash, seen) =>
        if Reconcile(db, op, hash, seen).Ok? { ObservationLeavesRows(db, op, hash, seen); }
      case BeginFunding(r, e) =>
      case AdapterAnswers(r, status, hash) =>
      case AdapterThrows(r) =>
      case Crash(r) =>
      case _ => hide *; WorkLeavesTransactions(w, step);
    }
  }

  lemma RowsStayRefl(db: Ledger)
    ensures SettlementRowsStay(db, db)
  {
  }

  lemma LandingLeavesRows(db: Ledger, flight: Flight)
    requires flight.Settling?
    ensures var done := FinalizeFailure(db, flight.escrow, flight.op);
            done.Ok? ==> SettlementRowsStay(db, done.value)
    ensures flight.answer.Answered? ==>
              var done := FinalizeSettlement(db, flight.escrow, flight.op, flight.answer.status, flight.answer.hash);
              done.Ok? ==> SettlementRowsStay(db, done.value)
  {
    hide FinalizeFailure, FinalizeSettlement, SettlementRowsStay;
    if FinalizeFailure(db, flight.escrow, flight.op).Ok? {
      FailureLeavesRows(db, flight.escrow, flight.op);
    }
    if flight.answer.Answered?
       && FinalizeSettlement(db, flight.escrow, flight.op, flight.answer.status, flight.answer.hash).Ok? {
      SettlementLeavesRows(db, flight.escrow, flight.op, flight.answer.status, flight.answer.hash);
    }
  }

  // ---------------------------------------------------------------- every step keeps it

  /** One call was carried out; one of this settlement, only for its owner. */
  ghost predicate OneCallMore(w: World, v: World, r: Id, e: Id, op: Settlement) {
    exists call ::
      && v.calls == w.calls + [call]
      && (call == Call(e, op) ==> r in Owners(w.flights, e, op) && r !in Owners(v.flights, e, op))
  }

  lemma AnswerAddsCall(w: World, r: Id, status: E.Status, hash: Option<Hash>, e: Id, op: Settlement)
    ensures var v := Next(w, AdapterAnswers(r, status, hash));
            && Owners(v.flights, e, op) <= Owners(w.flights, e, op)
            && (v.calls == w.calls || OneCallMore(w, v, r, e, op))
  {
    var v := Next(w, AdapterAnswers(r, status, hash));
    if v != w {
      assert v.calls == w.calls + [Call(w.flights[r].escrow, w.flights[r].op)];
    }
  }

  /** What a step does to the requests in the air and to the calls. */
  lemma NextMovesOwners(w: World, step: Step, e: Id, op: Settlement)
    ensures var v := Next(w, step);
            var before, after := Owners(w.flights, e, op), Owners(v.flights, e, op);
            if step.BeginSettlement? && step.e == e && step.op == op && v != w then
              && Operation(e, KindOf(op)) !in w.db.transactions && Operation(e, KindOf(op)) in v.db.transactions
              && after == before + {step.r} && v.calls == w.calls
            else
              && after <= before
              && (v.calls == w.calls
                  || (step.AdapterAnswers? && OneCallMore(w, v, step.r, e, op)))
  {
    hide FinalizeCreation, FinalizeFunding, FinalizeFailure, FinalizeSettlement, Reconcile, DiscardCreation,
         ReserveCreation, ReserveSettlement;
    match step {
      case BeginSettlement(r, x, y) => if ReserveSettlement(w.db, x, y).Ok? { ReservationAddsRow(w.db, x, y); }
      case BeginCreation(r, x, scope, sum, currency, rail) =>
      case FinishCreation(r, status, hash) =>
      case AbandonCreation(r) =>
      case BeginFunding(r, x) =>
      case FinishFunding(r, status, hash) =>
      case FinishSettlement(r) =>
      case LookAtChain(x, hash, seen) =>
      case AdapterAnswers(r, status, hash) => hide *; AnswerAddsCall(w, r, status, hash, e, op);
      case AdapterThrows(r) =>
      case Crash(r) =>
      case _ => hide Next; WorkLeavesTransactions(w, step);
    }
  }

  lemma NextKeepsOnce(w: World, step: Step, e: Id, op: Settlement)
    requires Once(w, e, op)
    ensures Once(Next(w, step), e, op)
  {
    hide Next, Owners;
    NextMovesOwners(w, step, e, op);
    NextLeavesRows(w, step);
  }

  lemma {:induction false} RunKeepsOnce(steps: seq<Step>)
    ensures OnceEach(Run(START, steps))
  {
    hide Next, Once;
    if steps == [] {
      forall e, op ensures Once(START, e, op) {
        OnceAtStart(e, op);
      }
    } else {
      RunKeepsOnce(steps[..|steps| - 1]);
      forall e, op ensures Once(Run(START, steps), e, op) {
        NextKeepsOnce(Run(START, steps[..|steps| - 1]), steps[|steps| - 1], e, op);
      }
    }
  }

  lemma OnceAtStart(e: Id, op: Settlement)
    ensures Once(START, e, op)
  {
  }

  /** Whatever the rail, no interleaving carries out the same settlement of an escrow twice. */
  lemma {:induction false} NoSettlementTwice(steps: seq<Step>, e: Id, op: Settlement)
    ensures multiset(Run(START, steps).calls)[Call(e, op)] <= 1
  {
    RunKeepsOnce(steps);
    hide Run;
    assert Once(Run(START, steps), e, op);
  }

  /** A release that an adapter carried out, on any rail, was sanctioned in the scope of its escrow. */
  lemma {:induction false} NoCallWithoutApproval(steps: seq<Step>, e: Id)
    ensures var w := Run(START, steps);
            Call(e, ToWorker) in w.calls ==> e in w.db.escrows && Guarantees.AcceptedOrResolved(w.db, w.db.escrows[e].scope)
  {
    RunKeepsOnce(steps);
    ReachableLedger(steps);
    hide Run;
    var w := Run(START, steps);
    assert Once(w, e, ToWorker);
    Guarantees.BackedParts(w.db);
    hide Sanctioned, Owners, Guarantees.AcceptedOrResolved;
    if e in w.db.escrows {
      Guarantees.SanctionMeans(w.db, w.db.escrows[e].scope);
    }
  }

  // ---------------------------------------------------------------- nothing is settled without a call

  ghost predicate AnsweredFor(w: World, e: Id, op: Settlement) {
    exists r | r in w.flights ::
      && w.flights[r].Settling? && w.flights[r].escrow == e && w.flights[r].op == op && w.flights[r].answer.Answered?
  }

  /** The settlement transaction was broadcast, or the escrow has the status it leads to. */
  predicate Marked(db: Ledger, e: Id, op: Settlement) {
    var key := Operation(e, KindOf(op));
    || (key in db.transactions && db.transactions[key].hash.Some?)
    || (e in db.escrows && db.escrows[e].status == TerminalStatus(op))
  }

  ghost predicate WasCalled(w: World, e: Id, op: Settlement) {
    AnsweredFor(w, e, op) || Marked(w.db, e, op) ==> Call(e, op) in w.calls
  }

  lemma WorkLeavesMarks(w: World, step: Step, e: Id, op: Settlement)
    requires step.NewAgreement? || step.Accept? || step.RequireFunding? || step.Cancel? || step.NewMilestone?
             || step.Submit? || step.Judge? || step.Contest? || step.Resolve?
    ensures Marked(Next(w, step).db, e, op) ==> Marked(w.db, e, op)
    ensures Next(w, step).flights == w.flights && Next(w, step).calls == w.calls
  {
    Payouts.WorkLeavesEscrows(w, step);
    hide Allocated, UnresolvedDispute, SettlementFor, CheckSplit, A.CanTransition, AgreementVerdict, MilestoneVerdict;
    assert Next(w, step).db.transactions == w.db.transactions;
    hide Next;
  }

  lemma CreationLeavesMarks(db: Ledger, x: Id, next: E.Status, hash: Option<Hash>, e: Id, op: Settlement)
    ensures Marked(DiscardCreation(db, x), e, op) ==> Marked(db, e, op)
    ensures FinalizeCreation(db, x, next, hash).Ok? && Marked(FinalizeCreation(db, x, next, hash).value, e, op) ==>
              Marked(db, e, op)
  {
  }

  lemma ReservationLeavesMarks(db: Ledger, x: Id, scope: Scope, amount: int, currency: string, rail: Rail, e: Id, op: Settlement)
    requires ReserveCreation(db, x, scope, amount, currency, rail).Ok?
    ensures Marked(ReserveCreation(db, x, scope, amount, currency, rail).value, e, op) ==> Marked(db, e, op)
  {
    hide TerminalEscrows, EscrowsIn, ScopeError, AmountError;
  }

  lemma FundingLeavesMarks(db: Ledger, x: Id, next: E.Status, hash: Option<Hash>, e: Id, op: Settlement)
    requires FinalizeFunding(db, x, next, hash).Ok?
    ensures Marked(FinalizeFunding(db, x, next, hash).value, e, op) ==> Marked(db, e, op)
  {
    hide FundScope;
    forall moved: Ledger
      ensures FundScope(moved, db.escrows[x].scope).transactions == moved.transactions
      ensures FundScope(moved, db.escrows[x].scope).escrows == moved.escrows
    {
      FundScopeLeavesTransactions(moved, db.escrows[x].scope);
      FundScopeLeavesEscrows(moved, db.escrows[x].scope);
    }
  }

  lemma BeginningLeavesMarks(db: Ledger, x: Id, y: Settlement, e: Id, op: Settlement)
    requires ReserveSettlement(db, x, y).Ok?
    ensures Marked(ReserveSettlement(db, x, y).value, e, op) ==> Marked(db, e, op)
  {
    hide SettlementError;
  }

  lemma FailureLeavesMarks(db: Ledger, x: Id, y: Settlement, e: Id, op: Settlement)
    requires FinalizeFailure(db, x, y).Ok?
    ensures Marked(FinalizeFailure(db, x, y).value, e, op) ==> Marked(db, e, op)
  {
  }

  lemma SettlementMarks(db: Ledger, x: Id, y: Settlement, answer: E.Status, hash: Option<Hash>, e: Id, op: Settlement)
    requires FinalizeSettlement(db, x, y, answer, hash).Ok? && (x != e || y != op)
    ensures Marked(FinalizeSettlement(db, x, y, answer, hash).value, e, op) ==> Marked(db, e, op)
  {
    hide Settle;
    forall moved: Ledger
      ensures Settle(moved, db.escrows[x].scope, y).transactions == moved.transactions
      ensures Settle(moved, db.escrows[x].scope, y).escrows == moved.escrows
    {
      SettleLeavesTransactions(moved, db.escrows[x].scope, y);
      SettleLeavesEscrows(moved, db.escrows[x].scope, y);
    }
  }

  lemma LookLeavesMarks(db: Ledger, x: Operation, hash: Hash, seen: R.Observation, e: Id, op: Settlement)
    requires Reconcile(db, x, hash, seen).Ok?
    ensures Marked(Reconcile(db, x, hash, seen).value, e, op) ==> Marked(db, e, op)
  {
    ObservedStatus(x.kind, R.View(db.escrows[x.escrow].status, db.transactions[x].status), seen);
    ObservationMovesRow(db, x, hash, seen);
    LookKeepsHashes(db, x, hash, seen);
    hide Reconcile, R.Observe;
  }

  lemma LookKeepsHashes(db: Ledger, x: Operation, hash: Hash, seen: R.Observation)
    requires Reconcile(db, x, hash, seen).Ok?
    ensures var after := Reconcile(db, x, hash, seen).value;
            && x in db.transactions && db.transactions[x].hash.Some? && after.transactions.Keys == db.transactions.Keys
            && forall key | key in db.transactions :: after.transactions[key].hash == db.transactions[key].hash
  {
    hide R.Observe, Settle, FundScope;
    forall moved: Ledger, scope
      ensures FundScope(moved, scope).transactions == moved.transactions
      ensures Settle(moved, scope, ToWorker).transactions == moved.transactions
      ensures Settle(moved, scope, ToClient).transactions == moved.transactions
    {
      FundScopeLeavesTransactions(moved, scope);
      SettleLeavesTransactions(moved, scope, ToWorker);
      SettleLeavesTransactions(moved, scope, ToClient);
    }
  }

  lemma LandingLeavesMarks(w: World, r: Id, e: Id, op: Settlement)
    requires WasCalled(w, e, op)
    ensures WasCalled(Next(w, FinishSettlement(r)), e, op)
  {
    hide FinalizeFailure, FinalizeSettlement, Marked;
    if InFlight(w, r) && w.flights[r].Settling? && w.flights[r].answer != Unanswered {
      var flight := w.flights[r];
      if flight.answer == Threw {
        if FinalizeFailure(w.db, flight.escrow, flight.op).Ok? {
          FailureLeavesMarks(w.db, flight.escrow, flight.op, e, op);
        }
      } else if FinalizeSettlement(w.db, flight.escrow, flight.op, flight.answer.status, flight.answer.hash).Ok?
                && (flight.escrow != e || flight.op != op) {
        SettlementMarks(w.db, flight.escrow, flight.op, flight.answer.status, flight.answer.hash, e, op);
      }
    }
  }

  lemma NextKeepsCalled(w: World, step: Step, e: Id, op: Settlement)
    requires WasCalled(w, e, op)
    ensures WasCalled(Next(w, step), e, op)
  {
    hide FinalizeCreation, FinalizeFunding, FinalizeFailure, FinalizeSettlement, Reconcile, DiscardCreation,
         ReserveCreation, ReserveSettlement, Marked;
    var db := w.db;
    match step {
      case BeginCreation(r, x, scope, sum, currency, rail) =>
        if ReserveCreation(db, x, scope, sum, currency, rail).Ok? {
          ReservationLeavesMarks(db, x, scope, sum, currency, rail, e, op);
        }
      case FinishCreation(r, status, hash) =>
        if r in w.flights { CreationLeavesMarks(db, w.flights[r].escrow, status, hash, e, op); }
      case AbandonCreation(r) =>
        if r in w.flights { CreationLeavesMarks(db, w.flights[r].escrow, E.Failed, None, e, op); }
      case FinishFunding(r, status, hash) =>
        if r in w.flights && FinalizeFunding(db, w.flights[r].escrow, status, hash).Ok? {
          FundingLeavesMarks(db, w.flights[r].escrow, status, hash, e, op);
        }
      case BeginSettlement(r, x, y) => if ReserveSettlement(db, x, y).Ok? { BeginningLeavesMarks(db, x, y, e, op); }
      case FinishSettlement(r) => hide *; LandingLeavesMarks(w, r, e, op);
      case LookAtChain(x, hash, seen) => if Reconcile(db, x, hash, seen).Ok? { LookLeavesMarks(db, x, hash, seen, e, op); }
      case BeginFunding(r, x) =>
      case AdapterAnswers(r, status, hash) =>
      case AdapterThrows(r) =>
      case Crash(r) =>
      case _ => hide Next; WorkLeavesMarks(w, step, e, op);
    }
  }

  /** A call that was carried out stays on record. */
  lemma NextKeepsCalls(w: World, step: Step)
    ensures forall call | call in w.calls :: call in Next(w, step).calls
  {
    hide CreateAgreement, AcceptAgreement, MoveAgreement, CreateMilestone, SubmitProof, ReviewProof, OpenDispute,
         ResolveDispute, FinalizeCreation, FinalizeFunding, FinalizeFailure, FinalizeSettlement, Reconcile,
         DiscardCreation, ReserveCreation, ReserveSettlement;
  }

  lemma {:induction false} RunKeepsCalled(w: World, steps: seq<Step>, e: Id, op: Settlement)
    requires WasCalled(w, e, op)
    ensures WasCalled(Run(w, steps), e, op) && (Call(e, op) in w.calls ==> Call(e, op) in Run(w, steps).calls)
  {
    hide Next, WasCalled;
    if steps != [] {
      var before := Run(w, steps[..|steps| - 1]);
      RunKeepsCalled(w, steps[..|steps| - 1], e, op);
      NextKeepsCalled(before, steps[|steps| - 1], e, op);
      NextKeepsCalls(before, steps[|steps| - 1]);
    }
  }

  lemma NobodyWasCalled(e: Id, op: Settlement)
    ensures WasCalled(START, e, op)
  {
  }

  /** On every rail a released escrow has had its release carried out, and a refunded one its refund. */
  lemma {:induction false} SettledWasCalled(steps: seq<Step>, e: Id, op: Settlement)
    ensures var w := Run(START, steps);
            e in w.db.escrows && w.db.escrows[e].status == TerminalStatus(op) ==> Call(e, op) in w.calls
  {
    NobodyWasCalled(e, op);
    RunKeepsCalled(START, steps, e, op);
    hide Run;
  }
}
