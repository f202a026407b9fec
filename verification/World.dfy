/**
 Any number of requests at once: every database transaction is one step, an
 adapter call lies between two of them, and a request may stop for good
 between any two steps.
 */
module World {
  import opened Results
  import opened Lifecycle
  import opened Ledger
  import opened Requests
  import opened Invariants
  import A = AgreementMachine
  import E = EscrowMachine
  import R = Reconciliation

  /** What came back from the settlement adapter. */
  datatype Answer = Unanswered | Answered(status: E.Status, hash: Option<Hash>) | Threw

  /** A request that is past its first transaction. */
  datatype Flight =
    | Creating(escrow: Id)
    | Funding(escrow: Id)
    | Settling(escrow: Id, op: Settlement, answer: Answer)

  /** A settlement call that an adapter carried out. */
  datatype Call = Call(escrow: Id, op: Settlement)

  datatype World = World(db: Ledger, flights: map<Id, Flight>, calls: seq<Call>)

  const START: World := World(EMPTY, map[], [])

  datatype Step =
    | NewAgreement(a: Id, sum: int, currency: string)
    | Accept(a: Id)
    | RequireFunding(a: Id)
    | Cancel(a: Id)
    | NewMilestone(a: Id, m: Id, sum: int, currency: string, order: Option<int>, reference: Option<string>)
    | Submit(a: Id, m: Id, p: Id)
    | Judge(p: Id, review: Id, decision: Decision)
    | Contest(a: Id, m: Id, d: Id)
    | Resolve(d: Id, resolution: Resolution)
    | BeginCreation(r: Id, e: Id, scope: Scope, sum: int, currency: string, rail: Rail)
    | FinishCreation(r: Id, status: E.Status, hash: Option<Hash>)
    | AbandonCreation(r: Id)
    | BeginFunding(r: Id, e: Id)
    | FinishFunding(r: Id, status: E.Status, hash: Option<Hash>)
    | BeginSettlement(r: Id, e: Id, op: Settlement)
    | AdapterAnswers(r: Id, status: E.Status, hash: Option<Hash>)
    | AdapterThrows(r: Id)
    | FinishSettlement(r: Id)
    | Crash(r: Id)
    | LookAtChain(operation: Operation, seenHash: Hash, seen: R.Observation)

  // ---------------------------------------------------------------- what the adapters answer

  predicate AnswersCreation(rail: Rail, status: E.Status) {
    status == E.AwaitingFunding || (rail == Ckb && status == E.ReconciliationRequired)
  }

  predicate AnswersFunding(rail: Rail, status: E.Status) {
    status == E.Funded || (rail == Ckb && status == E.FundingDetected)
  }

  predicate AnswersSettlement(rail: Rail, op: Settlement, status: E.Status) {
    if rail == Ckb then status == PendingStatus(op) || status == E.ReconciliationRequired
    else status == TerminalStatus(op)
  }

  // ---------------------------------------------------------------- steps

  function After(w: World, result: Result<Ledger, Error>): World {
    if result.Ok? then w.(db := result.value) else w
  }

  /** The request is over. */
  function Land(w: World, r: Id): World {
    w.(flights := w.flights - {r})
  }

  /** A last transaction ends its request; when it is refused the request may try it again, or crash. */
  function Finish(w: World, r: Id, result: Result<Ledger, Error>): World {
    if result.Ok? then Land(w.(db := result.value), r) else w
  }

  ghost function TakeOff(w: World, r: Id, flight: Flight, result: Result<Ledger, Error>): World {
    if result.Ok? && r !in w.flights then w.(db := result.value, flights := w.flights[r := flight]) else w
  }

  predicate InFlight(w: World, r: Id) {
    r in w.flights && w.flights[r].escrow in w.db.escrows
  }

  function RailOf(w: World, r: Id): Rail
    requires InFlight(w, r)
  {
    w.db.escrows[w.flights[r].escrow].rail
  }

  ghost function Next(w: World, step: Step): World {
    match step
    case NewAgreement(a, sum, currency) => After(w, CreateAgreement(w.db, a, sum, currency))
    case Accept(a) => After(w, AcceptAgreement(w.db, a))
    case RequireFunding(a) => After(w, MoveAgreement(w.db, a, A.FundingRequired))
    case Cancel(a) => After(w, MoveAgreement(w.db, a, A.Cancelled))
    case NewMilestone(a, m, sum, currency, order, reference) =>
      After(w, CreateMilestone(w.db, a, m, sum, currency, order, reference))
    case Submit(a, m, p) => After(w, SubmitProof(w.db, a, m, p))
    case Judge(p, review, decision) => After(w, ReviewProof(w.db, p, review, decision))
    case Contest(a, m, d) => After(w, OpenDispute(w.db, a, m, d))
    case Resolve(d, resolution) => After(w, ResolveDispute(w.db, d, resolution))
    case BeginCreation(r, e, scope, sum, currency, rail) =>
      TakeOff(w, r, Creating(e), ReserveCreation(w.db, e, scope, sum, currency, rail))
    case FinishCreation(r, status, hash) =>
      if InFlight(w, r) && w.flights[r].Creating? && AnswersCreation(RailOf(w, r), status)
      then Finish(w, r, FinalizeCreation(w.db, w.flights[r].escrow, status, hash))
      else w
    case AbandonCreation(r) =>
      if InFlight(w, r) && w.flights[r].Creating?
      then Land(w.(db := DiscardCreation(w.db, w.flights[r].escrow)), r)
      else w
    case BeginFunding(r, e) =>
      if e in w.db.escrows && w.db.escrows[e].status !in {E.NotCreated, E.Funded}
      then TakeOff(w, r, Funding(e), Ok(w.db))
      else w
    case FinishFunding(r, status, hash) =>
      if InFlight(w, r) && w.flights[r].Funding? && AnswersFunding(RailOf(w, r), status)
      then Finish(w, r, FinalizeFunding(w.db, w.flights[r].escrow, status, hash))
      else w
    case BeginSettlement(r, e, op) =>
      TakeOff(w, r, Settling(e, op, Unanswered), ReserveSettlement(w.db, e, op))
    case AdapterAnswers(r, status, hash) =>
      if InFlight(w, r) && w.flights[r].Settling? && w.flights[r].answer == Unanswered
         && AnswersSettlement(RailOf(w, r), w.flights[r].op, status)
      then w.(flights := w.flights[r := w.flights[r].(answer := Answered(status, hash))],
              calls := w.calls + [Call(w.flights[r].escrow, w.flights[r].op)])
      else w
    case AdapterThrows(r) =>
      if InFlight(w, r) && w.flights[r].Settling? && w.flights[r].answer == Unanswered
      then w.(flights := w.flights[r := w.flights[r].(answer := Threw)])
      else w
    case FinishSettlement(r) =>
      if InFlight(w, r) && w.flights[r].Settling? && w.flights[r].answer != Unanswered
      then
        var flight := w.flights[r];
        if flight.answer == Threw then Finish(w, r, FinalizeFailure(w.db, flight.escrow, flight.op))
        // The service may finalize once more after a commit that it did not learn about.
        else After(w, FinalizeSettlement(w.db, flight.escrow, flight.op, flight.answer.status, flight.answer.hash))
      else w
    case Crash(r) => Land(w, r)
    case LookAtChain(operation, hash, seen) =>
      if operation.escrow in w.db.escrows && w.db.escrows[operation.escrow].rail == Ckb
      then After(w, Reconcile(w.db, operation, hash, seen))
      else w
  }

  ghost function Run(w: World, steps: seq<Step>): World {
    if steps == [] then w else Next(Run(w, steps[..|steps| - 1]), steps[|steps| - 1])
  }

  // ---------------------------------------------------------------- every request is among the steps

  /** A request of one transaction that is accepted is one step. */
  lemma WorkIsAStep(w: World, step: Step)
    ensures var done := match step
                        case NewAgreement(a, sum, currency) => CreateAgreement(w.db, a, sum, currency)
                        case Accept(a) => AcceptAgreement(w.db, a)
                        case RequireFunding(a) => MoveAgreement(w.db, a, A.FundingRequired)
                        case Cancel(a) => MoveAgreement(w.db, a, A.Cancelled)
                        case NewMilestone(a, m, sum, currency, order, reference) =>
                          CreateMilestone(w.db, a, m, sum, currency, order, reference)
                        case Submit(a, m, p) => SubmitProof(w.db, a, m, p)
                        case Judge(p, review, decision) => ReviewProof(w.db, p, review, decision)
                        case Contest(a, m, d) => OpenDispute(w.db, a, m, d)
                        case Resolve(d, resolution) => ResolveDispute(w.db, d, resolution)
                        case _ => Ok(Next(w, step).db);
            Next(w, step).db == if done.Ok? then done.value else w.db
  {
    hide CreateAgreement, AcceptAgreement, MoveAgreement, CreateMilestone, SubmitProof, ReviewProof, OpenDispute,
         ResolveDispute, ReserveCreation, FinalizeCreation, DiscardCreation, FinalizeFunding, ReserveSettlement,
         FinalizeFailure, FinalizeSettlement, Reconcile;
  }

  /** A creation that nobody interferes with reserves, and ends with what the adapter said. */
  lemma CreationRunsThrough(w: World, r: Id, e: Id, scope: Scope, sum: int, currency: string, rail: Rail, status: E.Status,
                            hash: Option<Hash>)
    requires r !in w.flights && ReserveCreation(w.db, e, scope, sum, currency, rail).Ok?
    requires status == E.AwaitingFunding || (rail == Ckb && status == E.ReconciliationRequired)
    ensures var begun := Next(w, BeginCreation(r, e, scope, sum, currency, rail));
            var reserved := ReserveCreation(w.db, e, scope, sum, currency, rail).value;
            && FinalizeCreation(reserved, e, status, hash).Ok?
            && Next(begun, FinishCreation(r, status, hash))
               == w.(db := FinalizeCreation(reserved, e, status, hash).value)
            && Next(begun, AbandonCreation(r)) == w.(db := DiscardCreation(reserved, e))
  {
    var reserved := ReserveCreation(w.db, e, scope, sum, currency, rail).value;
    ReservedIsNew(w.db, e, scope, sum, currency, rail);
    hide ReserveCreation;
    CreationLands(w, r, e, reserved, status, hash);
    hide DiscardCreation, FinalizeCreation;
  }

  lemma ReservedIsNew(db: Ledger, e: Id, scope: Scope, sum: int, currency: string, rail: Rail)
    requires ReserveCreation(db, e, scope, sum, currency, rail).Ok?
    ensures var reserved := ReserveCreation(db, e, scope, sum, currency, rail).value;
            e in reserved.escrows && reserved.escrows[e].status == E.NotCreated && reserved.escrows[e].rail == rail
  {
    hide ScopeError, AmountError, TerminalEscrows, EscrowsIn;
  }

  lemma CreationLands(w: World, r: Id, e: Id, reserved: Ledger, status: E.Status, hash: Option<Hash>)
    requires r !in w.flights && e in reserved.escrows && reserved.escrows[e].status == E.NotCreated
    requires AnswersCreation(reserved.escrows[e].rail, status)
    ensures var begun := w.(db := reserved, flights := w.flights[r := Creating(e)]);
            && FinalizeCreation(reserved, e, status, hash).Ok?
            && Next(begun, FinishCreation(r, status, hash)) == w.(db := FinalizeCreation(reserved, e, status, hash).value)
            && Next(begun, AbandonCreation(r)) == w.(db := DiscardCreation(reserved, e))
  {
    assert FinalizeCreation(reserved, e, status, hash).Ok?;
    hide DiscardCreation, FinalizeCreation;
    assert w.flights[r := Creating(e)] - {r} == w.flights;
  }

  /** A funding that nobody interferes with ends with what the adapter said. */
  lemma FundingRunsThrough(w: World, r: Id, e: Id, status: E.Status, hash: Option<Hash>)
    requires r !in w.flights && e in w.db.escrows && w.db.escrows[e].status !in {E.NotCreated, E.Funded}
    requires status == E.Funded || (w.db.escrows[e].rail == Ckb && status == E.FundingDetected)
    requires FinalizeFunding(w.db, e, status, hash).Ok?
    ensures Next(Next(w, BeginFunding(r, e)), FinishFunding(r, status, hash))
            == w.(db := FinalizeFunding(w.db, e, status, hash).value)
  {
    hide FinalizeFunding;
    assert w.flights[r := Funding(e)] - {r} == w.flights;
  }

  /** A settlement that nobody interferes with is carried out once and ends with what the adapter said, or failed. */
  lemma SettlementRunsThrough(w: World, r: Id, e: Id, op: Settlement, status: E.Status, hash: Option<Hash>)
    requires r !in w.flights && e in w.db.escrows && ReserveSettlement(w.db, e, op).Ok?
    requires AnswersSettlement(w.db.escrows[e].rail, op, status)
    ensures var reserved, begun := ReserveSettlement(w.db, e, op).value, Next(w, BeginSettlement(r, e, op));
            var answered := Next(Next(begun, AdapterAnswers(r, status, hash)), FinishSettlement(r));
            var done, failed := FinalizeSettlement(reserved, e, op, status, hash), FinalizeFailure(reserved, e, op);
            && done.Ok? && answered.db == done.value && answered.calls == w.calls + [Call(e, op)]
            && failed.Ok?
            && Next(Next(begun, AdapterThrows(r)), FinishSettlement(r)) == w.(db := failed.value)
  {
    ReservedIsPending(w.db, e, op);
    var reserved := ReserveSettlement(w.db, e, op).value;
    PendingFinishes(reserved, e, op, status, hash);
    SettlementBegins(w, r, e, op);
    hide Next, ReserveSettlement, FinalizeSettlement, FinalizeFailure;
    var begun := w.(db := reserved, flights := w.flights[r := Settling(e, op, Unanswered)]);
    AnswerLands(begun, r, e, op, status, hash);
    ThrowLands(begun, r, e, op);
    assert begun.flights[r := Settling(e, op, Threw)] - {r} == w.flights;
  }

  lemma SettlementBegins(w: World, r: Id, e: Id, op: Settlement)
    requires r !in w.flights && ReserveSettlement(w.db, e, op).Ok?
    ensures Next(w, BeginSettlement(r, e, op))
            == w.(db := ReserveSettlement(w.db, e, op).value, flights := w.flights[r := Settling(e, op, Unanswered)])
  {
    hide ReserveSettlement;
  }

  lemma AnswerLands(w: World, r: Id, e: Id, op: Settlement, status: E.Status, hash: Option<Hash>)
    requires r in w.flights && w.flights[r] == Settling(e, op, Unanswered) && e in w.db.escrows
    requires AnswersSettlement(w.db.escrows[e].rail, op, status) && FinalizeSettlement(w.db, e, op, status, hash).Ok?
    ensures var answered := Next(Next(w, AdapterAnswers(r, status, hash)), FinishSettlement(r));
            answered.db == FinalizeSettlement(w.db, e, op, status, hash).value && answered.calls == w.calls + [Call(e, op)]
  {
    hide FinalizeSettlement;
  }

  lemma ThrowLands(w: World, r: Id, e: Id, op: Settlement)
    requires r in w.flights && w.flights[r] == Settling(e, op, Unanswered) && e in w.db.escrows
    requires FinalizeFailure(w.db, e, op).Ok?
    ensures Next(Next(w, AdapterThrows(r)), FinishSettlement(r))
            == w.(db := FinalizeFailure(w.db, e, op).value, flights := w.flights[r := Settling(e, op, Threw)] - {r})
  {
    hide FinalizeFailure;
  }

  lemma ReservedIsPending(db: Ledger, e: Id, op: Settlement)
    requires e in db.escrows && ReserveSettlement(db, e, op).Ok?
    ensures var reserved := ReserveSettlement(db, e, op).value;
            e in reserved.escrows && reserved.escrows[e] == db.escrows[e].(status := PendingStatus(op))
  {
    hide SettlementError;
  }

  lemma PendingFinishes(db: Ledger, e: Id, op: Settlement, status: E.Status, hash: Option<Hash>)
    requires e in db.escrows && db.escrows[e].status == PendingStatus(op)
    ensures FinalizeSettlement(db, e, op, status, hash).Ok? && FinalizeFailure(db, e, op).Ok?
  {
    hide Settle;
  }

  // ---------------------------------------------------------------- the ledger invariant over runs

  lemma AgreementMovesKeep(db: Ledger, a: Id, to: A.Status)
    requires Inv(db) && to in {A.FundingRequired, A.Cancelled}
    ensures MoveAgreement(db, a, to).Ok? ==> Inv(MoveAgreement(db, a, to).value)
    ensures AcceptAgreement(db, a).Ok? ==> Inv(AcceptAgreement(db, a).value)
  {
    hide Inv, WithAgreementStatus;
    if AcceptAgreement(db, a).Ok? {
      AgreementMoveKeeps(db, a, A.Accepted);
    }
    if MoveAgreement(db, a, to).Ok? {
      AgreementMoveKeeps(db, a, to);
    }
  }

  lemma NextKeepsLedger(w: World, step: Step)
    requires Inv(w.db)
    ensures Inv(Next(w, step).db)
  {
    hide Inv, CreateAgreement, AcceptAgreement, MoveAgreement, CreateMilestone, SubmitProof, ReviewProof, OpenDispute,
         ResolveDispute, ReserveCreation, FinalizeCreation, DiscardCreation, FinalizeFunding, ReserveSettlement,
         FinalizeFailure, FinalizeSettlement, Reconcile;
    var db := w.db;
    match step {
      case NewAgreement(a, sum, currency) =>
        if CreateAgreement(db, a, sum, currency).Ok? { CreateAgreementKeeps(db, a, sum, currency); }
      case Accept(a) => AgreementMovesKeep(db, a, A.Cancelled);
      case RequireFunding(a) => AgreementMovesKeep(db, a, A.FundingRequired);
      case Cancel(a) => AgreementMovesKeep(db, a, A.Cancelled);
      case NewMilestone(a, m, sum, currency, order, reference) =>
        if CreateMilestone(db, a, m, sum, currency, order, reference).Ok? {
          CreateMilestoneKeeps(db, a, m, sum, currency, order, reference);
        }
      case Submit(a, m, p) => if SubmitProof(db, a, m, p).Ok? { SubmitProofKeeps(db, a, m, p); }
      case Judge(p, r, decision) => if ReviewProof(db, p, r, decision).Ok? { ReviewProofKeeps(db, p, r, decision); }
      case Contest(a, m, d) => if OpenDispute(db, a, m, d).Ok? { OpenDisputeKeeps(db, a, m, d); }
      case Resolve(d, resolution) => if ResolveDispute(db, d, resolution).Ok? { ResolveDisputeKeeps(db, d, resolution); }
      case _ => EscrowStepKeepsLedger(w, step);
    }
  }

  lemma EscrowStepKeepsLedger(w: World, step: Step)
    requires Inv(w.db)
    requires !step.NewAgreement? && !step.Accept? && !step.RequireFunding? && !step.Cancel? && !step.NewMilestone?
    requires !step.Submit? && !step.Judge? && !step.Contest? && !step.Resolve?
    ensures Inv(Next(w, step).db)
  {
    hide Inv, ReserveCreation, FinalizeCreation, DiscardCreation, FinalizeFunding, ReserveSettlement,
         FinalizeFailure, FinalizeSettlement, Reconcile;
    var db := w.db;
    match step {
      case BeginCreation(r, e, scope, sum, currency, rail) =>
        if ReserveCreation(db, e, scope, sum, currency, rail).Ok? {
          ReserveCreationKeeps(db, e, scope, sum, currency, rail);
        }
      case FinishCreation(r, status, hash) =>
        if InFlight(w, r) && FinalizeCreation(db, w.flights[r].escrow, status, hash).Ok? {
          FinalizeCreationKeeps(db, w.flights[r].escrow, status, hash);
        }
      case AbandonCreation(r) => if InFlight(w, r) { DiscardCreationKeeps(db, w.flights[r].escrow); }
      case FinishFunding(r, status, hash) =>
        if InFlight(w, r) && FinalizeFunding(db, w.flights[r].escrow, status, hash).Ok? {
          FinalizeFundingKeeps(db, w.flights[r].escrow, status, hash);
        }
      case BeginSettlement(r, e, op) =>
        if ReserveSettlement(db, e, op).Ok? { ReserveSettlementKeeps(db, e, op); }
      case FinishSettlement(r) => if InFlight(w, r) && w.flights[r].Settling? { LandingKeepsLedger(db, w.flights[r]); }
      case LookAtChain(operation, hash, seen) =>
        if Reconcile(db, operation, hash, seen).Ok? { ReconcileKeeps(db, operation, hash, seen); }
      case _ =>
    }
  }

  lemma LandingKeepsLedger(db: Ledger, flight: Flight)
    requires Inv(db) && flight.Settling?
    ensures var done := FinalizeFailure(db, flight.escrow, flight.op); done.Ok? ==> Inv(done.value)
    ensures flight.answer.Answered? ==>
              var done := FinalizeSettlement(db, flight.escrow, flight.op, flight.answer.status, flight.answer.hash);
              done.Ok? ==> Inv(done.value)
  {
    hide Inv, FinalizeFailure, FinalizeSettlement;
    if FinalizeFailure(db, flight.escrow, flight.op).Ok? {
      FinalizeFailureKeeps(db, flight.escrow, flight.op);
    }
    if flight.answer.Answered?
       && FinalizeSettlement(db, flight.escrow, flight.op, flight.answer.status, flight.answer.hash).Ok? {
      FinalizeSettlementKeeps(db, flight.escrow, flight.op, flight.answer.status, flight.answer.hash);
    }
  }

  lemma {:induction false} RunKeepsLedger(w: World, steps: seq<Step>)
    requires Inv(w.db)
    ensures Inv(Run(w, steps).db)
  {
    hide Inv, Next;
    if steps != [] {
      RunKeepsLedger(w, steps[..|steps| - 1]);
      NextKeepsLedger(Run(w, steps[..|steps| - 1]), steps[|steps| - 1]);
    }
  }

  /** Every ledger that any interleaving of requests reaches. */
  lemma {:induction false} ReachableLedger(steps: seq<Step>)
    ensures Inv(Run(START, steps).db)
  {
    EmptyLedgerIsFine();
    RunKeepsLedger(START, steps);
  }
}
