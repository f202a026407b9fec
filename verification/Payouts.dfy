/**
 Who is paid, over every interleaving: on the mock and manual rails at most one
 settlement call per escrow is ever carried out, and its outcome is final.
 */
module Payouts {
  import opened Results
  import opened Ledger
  import opened Sums
  import opened Requests
  import opened Invariants
  import opened World
  import A = AgreementMachine
  import E = EscrowMachine
  import R = Reconciliation

  /** The settlement calls carried out for one escrow, in order. */
  function CallsFor(calls: seq<Call>, e: Id): seq<Settlement> {
    if calls == [] then []
    else
      var front, last := CallsFor(calls[..|calls| - 1], e), calls[|calls| - 1];
      if last.escrow == e then front + [last.op] else front
  }

  function SettlingOn(w: World, e: Id): map<Id, Flight> {
    map r | r in w.flights && w.flights[r].Settling? && w.flights[r].escrow == e :: w.flights[r]
  }

  function RowOf(db: Ledger, e: Id): Option<Escrow> {
    if e in db.escrows then Some(db.escrows[e]) else None
  }

  ghost predicate Idle(settling: map<Id, Flight>, made: seq<Settlement>) {
    settling == map[] && made == []
  }

  /** One request owns the settlement, and has or has not been answered. */
  ghost predicate Underway(op: Settlement, settling: map<Id, Flight>, made: seq<Settlement>) {
    && (forall r, q | r in settling && q in settling :: r == q)
    && (forall r | r in settling :: settling[r].Settling? && settling[r].op == op)
    && (made == [] || made == [op])
    && (forall r | r in settling ::
          if made == [] then !settling[r].answer.Answered?
          else settling[r].answer.Answered? && settling[r].answer.status == TerminalStatus(op))
  }

  /** What an escrow row says about the calls made for it and the requests working on it. */
  ghost predicate PaidState(row: Option<Escrow>, settling: map<Id, Flight>, made: seq<Settlement>) {
    if row.None? || row.value.status == E.NotCreated then Idle(settling, made)
    else if row.value.rail == Ckb then true
    else
      match row.value.status
      case ReconciliationRequired => false
      case ReleasePending => Underway(ToWorker, settling, made)
      case RefundPending => Underway(ToClient, settling, made)
      case Released => Underway(ToWorker, settling, made) && made == [ToWorker]
      case Refunded => Underway(ToClient, settling, made) && made == [ToClient]
      case _ => Idle(settling, made)
  }

  ghost predicate Paid(w: World, e: Id) {
    PaidState(RowOf(w.db, e), SettlingOn(w, e), CallsFor(w.calls, e))
  }

  ghost predicate PayoutInv(w: World) {
    forall e :: Paid(w, e)
  }

  // ---------------------------------------------------------------- what requests do to escrow rows

  lemma FundScopeLeavesEscrows(db: Ledger, scope: Scope)
    ensures FundScope(db, scope).escrows == db.escrows
  {
    hide SettlementFor;
  }

  lemma SettleLeavesEscrows(db: Ledger, scope: Scope, op: Settlement)
    ensures Settle(db, scope, op).escrows == db.escrows
  {
    assert SettleMilestone(db, scope, op).escrows == db.escrows;
    hide SettleMilestone, AllEscrowsAre, RollUpTarget;
    assert forall moved: Ledger, a :: RollUp(moved, a, op).escrows == moved.escrows;
  }

  /** Work on agreements, milestones, proofs and disputes does not touch escrows. */
  lemma WorkLeavesEscrows(w: World, step: Step)
    requires step.NewAgreement? || step.Accept? || step.RequireFunding? || step.Cancel? || step.NewMilestone?
             || step.Submit? || step.Judge? || step.Contest? || step.Resolve?
    ensures Next(w, step).db.escrows == w.db.escrows
    ensures Next(w, step).flights == w.flights && Next(w, step).calls == w.calls
  {
    hide Allocated, UnresolvedDispute, SettlementFor, CheckSplit, A.CanTransition, AgreementVerdict, MilestoneVerdict;
  }

  /** The row an escrow has after its creation or funding is finalized, or its settlement. */
  ghost predicate RowMoved(db: Ledger, after: Ledger, e: Id, status: E.Status) {
    e in db.escrows && after.escrows == db.escrows[e := db.escrows[e].(status := status)]
  }

  lemma FundingMovesRow(db: Ledger, e: Id, next: E.Status, hash: Option<Hash>)
    requires FinalizeFunding(db, e, next, hash).Ok?
    ensures var after := FinalizeFunding(db, e, next, hash).value;
            if db.escrows[e].status == E.Funded then after == db
            else RowMoved(db, after, e, next)
                 && (db.escrows[e].status == next || E.CanTransition(db.escrows[e].status, next))
  {
    hide FundScope;
    forall moved: Ledger ensures FundScope(moved, db.escrows[e].scope).escrows == moved.escrows {
      FundScopeLeavesEscrows(moved, db.escrows[e].scope);
    }
  }

  lemma SettlementMovesRow(db: Ledger, e: Id, op: Settlement, answer: E.Status, hash: Option<Hash>)
    requires FinalizeSettlement(db, e, op, answer, hash).Ok?
    ensures var next := if answer == E.ReconciliationRequired then E.ReconciliationRequired
                        else if db.escrows[e].rail != Ckb && answer == TerminalStatus(op) then TerminalStatus(op)
                        else PendingStatus(op);
            RowMoved(db, FinalizeSettlement(db, e, op, answer, hash).value, e, next)
  {
    hide Settle;
    forall moved: Ledger ensures Settle(moved, db.escrows[e].scope, op).escrows == moved.escrows {
      SettleLeavesEscrows(moved, db.escrows[e].scope, op);
    }
  }

  /** What the transaction of an observation makes of the rows it finds. */
  function Looked(db: Ledger, op: Operation, seen: R.Observation): R.Outcome
    requires op in db.transactions && op.escrow in db.escrows
  {
    R.Observe(op.kind, R.View(db.escrows[op.escrow].status, db.transactions[op].status), seen)
  }

  lemma ObservationMovesRow(db: Ledger, op: Operation, hash: Hash, seen: R.Observation)
    requires Reconcile(db, op, hash, seen).Ok?
    ensures op in db.transactions && op.escrow in db.escrows && Looked(db, op, seen).Applied?
    ensures RowMoved(db, Reconcile(db, op, hash, seen).value, op.escrow, Looked(db, op, seen).view.escrow)
    ensures Looked(db, op, seen).view.escrow == E.NotCreated ==> db.escrows[op.escrow].status == E.NotCreated
  {
    var escrow, row := db.escrows[op.escrow], db.transactions[op];
    var outcome := R.Observe(op.kind, R.View(escrow.status, row.status), seen);
    ObservedStatus(op.kind, R.View(escrow.status, row.status), seen);
    hide Settle, FundScope, R.Observe;
    var written := WithTransaction(WithEscrowStatus(db, op.escrow, outcome.view.escrow), op,
                                   row.(status := outcome.view.transaction));
    FundScopeLeavesEscrows(written, escrow.scope);
    SettleLeavesEscrows(written, escrow.scope, ToWorker);
    SettleLeavesEscrows(written, escrow.scope, ToClient);
    assert RowMoved(db, Reconcile(db, op, hash, seen).value, op.escrow, outcome.view.escrow);
  }

  // ---------------------------------------------------------------- every step keeps the payout invariant

  /** A step that works on one escrow only. */
  ghost predicate Touches(w: World, v: World, e: Id) {
    forall x | x != e ::
      RowOf(v.db, x) == RowOf(w.db, x) && SettlingOn(v, x) == SettlingOn(w, x) && CallsFor(v.calls, x) == CallsFor(w.calls, x)
  }

  lemma TouchedStaysPaid(w: World, v: World, e: Id)
    requires PayoutInv(w) && Touches(w, v, e) && Paid(v, e)
    ensures PayoutInv(v)
  {
    forall x ensures Paid(v, x) {
      assert Paid(w, x);
    }
  }

  lemma NoFlightMoves(w: World, v: World)
    requires v.flights == w.flights
    ensures forall x :: SettlingOn(v, x) == SettlingOn(w, x)
  {
  }

  /** Taking a request out of the air. */
  lemma LandingFlights(w: World, v: World, r: Id)
    requires v.flights == w.flights - {r}
    ensures forall x :: SettlingOn(v, x) == SettlingOn(w, x) - {r}
    ensures forall x | r !in w.flights || !w.flights[r].Settling? || w.flights[r].escrow != x ::
              SettlingOn(v, x) == SettlingOn(w, x)
  {
  }

  lemma WritingFlights(w: World, v: World, r: Id, flight: Flight)
    requires v.flights == w.flights[r := flight]
    requires r in w.flights ==> w.flights[r].Settling? && flight.Settling? && w.flights[r].escrow == flight.escrow
    ensures forall x | !flight.Settling? || x != flight.escrow :: SettlingOn(v, x) == SettlingOn(w, x)
    ensures flight.Settling? ==> SettlingOn(v, flight.escrow) == SettlingOn(w, flight.escrow)[r := flight]
  {
  }

  lemma OneMoreCall(calls: seq<Call>, call: Call)
    ensures forall x | x != call.escrow :: CallsFor(calls + [call], x) == CallsFor(calls, x)
    ensures CallsFor(calls + [call], call.escrow) == CallsFor(calls, call.escrow) + [call.op]
  {
    assert (calls + [call])[..|calls|] == calls;
  }

  /** Dropping a request that is done or dead leaves every escrow as well paid as before. */
  lemma LandingKeepsPaid(row: Option<Escrow>, settling: map<Id, Flight>, made: seq<Settlement>, r: Id)
    requires PaidState(row, settling, made)
    ensures PaidState(row, settling - {r}, made)
  {
  }

  lemma CrashKeepsPayouts(w: World, r: Id)
    requires PayoutInv(w)
    ensures PayoutInv(Next(w, Crash(r))) && PayoutInv(Land(w, r))
  {
    LandingFlights(w, Land(w, r), r);
    forall x ensures Paid(Land(w, r), x) {
      assert Paid(w, x);
      LandingKeepsPaid(RowOf(w.db, x), SettlingOn(w, x), CallsFor(w.calls, x), r);
    }
  }

  /** Writing one escrow row, when the row then says the same about payouts. */
  lemma RowKeepsPayouts(w: World, db: Ledger, e: Id)
    requires PayoutInv(w) && forall x | x != e :: RowOf(db, x) == RowOf(w.db, x)
    requires PaidState(RowOf(db, e), SettlingOn(w, e), CallsFor(w.calls, e))
    ensures PayoutInv(w.(db := db))
  {
    NoFlightMoves(w, w.(db := db));
    TouchedStaysPaid(w, w.(db := db), e);
  }

  lemma MovedRow(db: Ledger, after: Ledger, e: Id, status: E.Status)
    requires RowMoved(db, after, e, status)
    ensures RowOf(after, e) == Some(db.escrows[e].(status := status))
    ensures forall x | x != e :: RowOf(after, x) == RowOf(db, x)
  {
  }

  lemma CreationMovesRow(db: Ledger, e: Id, next: E.Status, hash: Option<Hash>)
    requires FinalizeCreation(db, e, next, hash).Ok?
    ensures RowMoved(db, FinalizeCreation(db, e, next, hash).value, e, next)
    ensures db.escrows[e].status == E.NotCreated && next != E.NotCreated
  {
  }

  lemma FinishCreationKeepsPayouts(w: World, r: Id, status: E.Status, hash: Option<Hash>)
    requires PayoutInv(w)
    ensures PayoutInv(Next(w, FinishCreation(r, status, hash)))
  {
    hide FinalizeCreation, PayoutInv, Paid, CallsFor, SettlingOn;
    if InFlight(w, r) && w.flights[r].Creating? && AnswersCreation(RailOf(w, r), status) {
      var e := w.flights[r].escrow;
      var done := FinalizeCreation(w.db, e, status, hash);
      if done.Ok? {
        CreationMovesRow(w.db, e, status, hash);
        MovedRow(w.db, done.value, e, status);
        PaidHere(w, e);
        RowKeepsPayouts(w, done.value, e);
        CrashKeepsPayouts(w.(db := done.value), r);
      }
    }
  }

  lemma PaidHere(w: World, e: Id)
    requires PayoutInv(w)
    ensures PaidState(RowOf(w.db, e), SettlingOn(w, e), CallsFor(w.calls, e))
  {
    assert Paid(w, e);
  }

  lemma DiscardedRow(db: Ledger, e: Id)
    requires e in db.escrows
    ensures RowOf(DiscardCreation(db, e), e) == if db.escrows[e].status == E.NotCreated then None else RowOf(db, e)
    ensures forall x | x != e :: RowOf(DiscardCreation(db, e), x) == RowOf(db, x)
  {
  }

  lemma AbandonCreationKeepsPayouts(w: World, r: Id)
    requires PayoutInv(w)
    ensures PayoutInv(Next(w, AbandonCreation(r)))
  {
    hide DiscardCreation, PayoutInv, Paid, CallsFor, SettlingOn;
    if InFlight(w, r) && w.flights[r].Creating? {
      var e := w.flights[r].escrow;
      DiscardedRow(w.db, e);
      PaidHere(w, e);
      RowKeepsPayouts(w, DiscardCreation(w.db, e), e);
      CrashKeepsPayouts(w.(db := DiscardCreation(w.db, e)), r);
    }
  }

  lemma ReservedRow(db: Ledger, e: Id, scope: Scope, sum: int, currency: string, rail: Rail)
    requires ReserveCreation(db, e, scope, sum, currency, rail).Ok?
    ensures var after := ReserveCreation(db, e, scope, sum, currency, rail).value;
            && RowOf(db, e) == None
            && RowOf(after, e).Some? && RowOf(after, e).value.status == E.NotCreated
            && forall x | x != e :: RowOf(after, x) == RowOf(db, x)
  {
  }

  lemma BeginCreationKeepsPayouts(w: World, r: Id, e: Id, scope: Scope, sum: int, currency: string, rail: Rail)
    requires PayoutInv(w)
    ensures PayoutInv(Next(w, BeginCreation(r, e, scope, sum, currency, rail)))
  {
    hide ReserveCreation, PayoutInv, Paid, CallsFor, SettlingOn;
    var done := ReserveCreation(w.db, e, scope, sum, currency, rail);
    if done.Ok? && r !in w.flights {
      ReservedRow(w.db, e, scope, sum, currency, rail);
      PaidHere(w, e);
      RowKeepsPayouts(w, done.value, e);
      QuietFlightKeepsPayouts(w.(db := done.value), r, Creating(e));
    }
  }

  /** Requests that create or fund an escrow make no settlement call. */
  lemma QuietFlightKeepsPayouts(w: World, r: Id, flight: Flight)
    requires PayoutInv(w) && r !in w.flights && !flight.Settling?
    ensures PayoutInv(w.(flights := w.flights[r := flight]))
  {
    var v := w.(flights := w.flights[r := flight]);
    WritingFlights(w, v, r, flight);
    forall x ensures Paid(v, x) {
      assert Paid(w, x);
    }
  }

  lemma BeginFundingKeepsPayouts(w: World, r: Id, e: Id)
    requires PayoutInv(w)
    ensures PayoutInv(Next(w, BeginFunding(r, e)))
  {
    hide PayoutInv;
    if r !in w.flights {
      QuietFlightKeepsPayouts(w, r, Funding(e));
    }
  }

  lemma FinishFundingKeepsPayouts(w: World, r: Id, status: E.Status, hash: Option<Hash>)
    requires PayoutInv(w)
    ensures PayoutInv(Next(w, FinishFunding(r, status, hash)))
  {
    hide FinalizeFunding, PayoutInv, Paid, CallsFor, SettlingOn;
    if InFlight(w, r) && w.flights[r].Funding? && AnswersFunding(RailOf(w, r), status) {
      var e := w.flights[r].escrow;
      var done := FinalizeFunding(w.db, e, status, hash);
      if done.Ok? && w.db.escrows[e].status != E.Funded {
        FundingMovesRow(w.db, e, status, hash);
        MovedRow(w.db, done.value, e, status);
        PaidHere(w, e);
        RowKeepsPayouts(w, done.value, e);
        CrashKeepsPayouts(w.(db := done.value), r);
      } else if done.Ok? {
        FundingMovesRow(w.db, e, status, hash);
        CrashKeepsPayouts(w, r);
      }
    }
  }

  lemma LookAtChainKeepsPayouts(w: World, op: Operation, hash: Hash, seen: R.Observation)
    requires PayoutInv(w)
    ensures PayoutInv(Next(w, LookAtChain(op, hash, seen)))
  {
    hide Reconcile, PayoutInv, Paid, CallsFor, SettlingOn, R.Observe, RowMoved;
    var e, done := op.escrow, Reconcile(w.db, op, hash, seen);
    if e in w.db.escrows && w.db.escrows[e].rail == Ckb && done.Ok? {
      ObservationMovesRow(w.db, op, hash, seen);
      MovedRow(w.db, done.value, e, Looked(w.db, op, seen).view.escrow);
      PaidHere(w, e);
      RowKeepsPayouts(w, done.value, e);
    }
  }

  lemma WorkKeepsPayouts(w: World, step: Step)
    requires PayoutInv(w)
    requires step.NewAgreement? || step.Accept? || step.RequireFunding? || step.Cancel? || step.NewMilestone?
             || step.Submit? || step.Judge? || step.Contest? || step.Resolve?
    ensures PayoutInv(Next(w, step))
  {
    WorkLeavesEscrows(w, step);
    hide Next;
    var v := Next(w, step);
    NoFlightMoves(w, v);
    forall x ensures Paid(v, x) {
      assert Paid(w, x);
    }
  }

  // ---------------------------------------------------------------- settling

  lemma ReservationMovesRow(db: Ledger, e: Id, op: Settlement)
    requires ReserveSettlement(db, e, op).Ok?
    ensures RowMoved(db, ReserveSettlement(db, e, op).value, e, PendingStatus(op))
    ensures db.escrows[e].status == E.Funded
  {
  }

  lemma BeginSettlementKeepsPayouts(w: World, r: Id, e: Id, op: Settlement)
    requires PayoutInv(w)
    ensures PayoutInv(Next(w, BeginSettlement(r, e, op)))
  {
    hide ReserveSettlement, PayoutInv, Paid, CallsFor, SettlingOn;
    var done := ReserveSettlement(w.db, e, op);
    if done.Ok? && r !in w.flights {
      var v := Next(w, BeginSettlement(r, e, op));
      ReservationMovesRow(w.db, e, op);
      MovedRow(w.db, done.value, e, PendingStatus(op));
      PaidHere(w, e);
      WritingFlights(w, v, r, Settling(e, op, Unanswered));
      SettledHere(w, v, e);
    }
  }

  lemma SettledHere(w: World, v: World, e: Id)
    requires PayoutInv(w)
    requires forall x | x != e :: RowOf(v.db, x) == RowOf(w.db, x)
    requires forall x | x != e :: SettlingOn(v, x) == SettlingOn(w, x)
    requires forall x | x != e :: CallsFor(v.calls, x) == CallsFor(w.calls, x)
    requires PaidState(RowOf(v.db, e), SettlingOn(v, e), CallsFor(v.calls, e))
    ensures PayoutInv(v)
  {
    TouchedStaysPaid(w, v, e);
  }

  /** Of all the requests that ever settled an escrow off the chain, the one in the air owns it. */
  lemma OwnerIsUnderway(w: World, r: Id)
    requires PayoutInv(w) && InFlight(w, r) && w.flights[r].Settling? && RailOf(w, r) != Ckb
    ensures var flight := w.flights[r];
            && Underway(flight.op, SettlingOn(w, flight.escrow), CallsFor(w.calls, flight.escrow))
            && w.db.escrows[flight.escrow].status
               in (if flight.answer.Answered? then {PendingStatus(flight.op), TerminalStatus(flight.op)}
                   else {PendingStatus(flight.op)})
            && SettlingOn(w, flight.escrow) == map[r := flight]
  {
    var e := w.flights[r].escrow;
    PaidHere(w, e);
    assert r in SettlingOn(w, e) && SettlingOn(w, e)[r] == w.flights[r];
    hide PayoutInv, Paid, CallsFor;
  }

  lemma AnswerKeepsUnderway(r: Id, flight: Flight, status: E.Status, hash: Option<Hash>, made: seq<Settlement>)
    requires flight.Settling? && flight.answer == Unanswered && Underway(flight.op, map[r := flight], made)
    ensures status == TerminalStatus(flight.op) ==>
              Underway(flight.op, map[r := flight.(answer := Answered(status, hash))], made + [flight.op])
    ensures Underway(flight.op, map[r := flight.(answer := Threw)], made)
    ensures forall next: Flight :: map[r := flight][r := next] == map[r := next]
  {
    assert r in map[r := flight];
  }

  lemma AdapterAnswersKeepsPayouts(w: World, r: Id, status: E.Status, hash: Option<Hash>)
    requires PayoutInv(w)
    ensures PayoutInv(Next(w, AdapterAnswers(r, status, hash)))
  {
    hide PayoutInv, Paid, CallsFor, SettlingOn, Underway;
    var v := Next(w, AdapterAnswers(r, status, hash));
    if InFlight(w, r) && w.flights[r].Settling? && w.flights[r].answer == Unanswered
       && AnswersSettlement(RailOf(w, r), w.flights[r].op, status) {
      var flight := w.flights[r];
      WritingFlights(w, v, r, flight.(answer := Answered(status, hash)));
      OneMoreCall(w.calls, Call(flight.escrow, flight.op));
      if RailOf(w, r) != Ckb {
        OwnerIsUnderway(w, r);
        AnswerKeepsUnderway(r, flight, status, hash, CallsFor(w.calls, flight.escrow));
      } else {
        ChainRowIsCreated(w, r);
      }
      SettledHere(w, v, flight.escrow);
    }
  }

  /** Nobody settles an escrow that is still being created. */
  lemma ChainRowIsCreated(w: World, r: Id)
    requires PayoutInv(w) && InFlight(w, r) && w.flights[r].Settling?
    ensures w.db.escrows[w.flights[r].escrow].status != E.NotCreated
  {
    PaidHere(w, w.flights[r].escrow);
    assert r in SettlingOn(w, w.flights[r].escrow);
  }

  lemma AdapterThrowsKeepsPayouts(w: World, r: Id)
    requires PayoutInv(w)
    ensures PayoutInv(Next(w, AdapterThrows(r)))
  {
    hide PayoutInv, Paid, CallsFor, SettlingOn, Underway;
    var v := Next(w, AdapterThrows(r));
    if InFlight(w, r) && w.flights[r].Settling? && w.flights[r].answer == Unanswered {
      var flight := w.flights[r];
      WritingFlights(w, v, r, flight.(answer := Threw));
      if RailOf(w, r) != Ckb {
        OwnerIsUnderway(w, r);
        AnswerKeepsUnderway(r, flight, E.Failed, None, CallsFor(w.calls, flight.escrow));
      } else {
        ChainRowIsCreated(w, r);
      }
      SettledHere(w, v, flight.escrow);
    }
  }

  /** What finishing a settlement makes of an escrow off the chain, given what the adapter said. */
  lemma FinishedIsPaid(r: Id, flight: Flight, made: seq<Settlement>, row: Escrow)
    requires flight.Settling? && flight.answer != Unanswered && row.rail != Ckb
    requires Underway(flight.op, map[r := flight], made)
    ensures flight.answer == Threw ==> PaidState(Some(row.(status := E.Failed)), map[], made)
    ensures flight.answer.Answered? ==>
              && flight.answer.status == TerminalStatus(flight.op)
              && PaidState(Some(row.(status := TerminalStatus(flight.op))), map[r := flight], made)
  {
    assert r in map[r := flight];
  }

  lemma FailureMovesRow(db: Ledger, e: Id, op: Settlement)
    requires FinalizeFailure(db, e, op).Ok?
    ensures RowMoved(db, FinalizeFailure(db, e, op).value, e, E.Failed)
  {
  }

  function Outcome(db: Ledger, flight: Flight): Result<Ledger, Error>
    requires flight.Settling? && flight.answer != Unanswered
  {
    if flight.answer == Threw then FinalizeFailure(db, flight.escrow, flight.op)
    else FinalizeSettlement(db, flight.escrow, flight.op, flight.answer.status, flight.answer.hash)
  }

  /** The status an escrow gets when its settlement is finished. */
  function StatusAfter(rail: Rail, flight: Flight): E.Status
    requires flight.Settling? && flight.answer != Unanswered
  {
    if flight.answer == Threw then E.Failed
    else if flight.answer.status == E.ReconciliationRequired then E.ReconciliationRequired
    else if rail != Ckb && flight.answer.status == TerminalStatus(flight.op) then TerminalStatus(flight.op)
    else PendingStatus(flight.op)
  }

  lemma OutcomeMovesRow(db: Ledger, flight: Flight)
    requires flight.Settling? && flight.answer != Unanswered && Outcome(db, flight).Ok?
    ensures flight.escrow in db.escrows
    ensures RowMoved(db, Outcome(db, flight).value, flight.escrow, StatusAfter(db.escrows[flight.escrow].rail, flight))
  {
    hide RowMoved, Settle;
    if flight.answer == Threw {
      FailureMovesRow(db, flight.escrow, flight.op);
    } else {
      SettlementMovesRow(db, flight.escrow, flight.op, flight.answer.status, flight.answer.hash);
    }
  }

  lemma FinishSettlementKeepsPayouts(w: World, r: Id)
    requires PayoutInv(w)
    ensures PayoutInv(Next(w, FinishSettlement(r)))
  {
    hide FinalizeFailure, FinalizeSettlement, PayoutInv, Paid, CallsFor, SettlingOn, Underway, RowMoved, RowOf, PaidState;
    if InFlight(w, r) && w.flights[r].Settling? && w.flights[r].answer != Unanswered && Outcome(w.db, w.flights[r]).Ok? {
      OutcomeMovesRow(w.db, w.flights[r]);
      FinishKeepsPaid(w, r, Outcome(w.db, w.flights[r]).value);
    }
  }

  lemma FinishKeepsPaid(w: World, r: Id, db: Ledger)
    requires PayoutInv(w) && InFlight(w, r) && w.flights[r].Settling? && w.flights[r].answer != Unanswered
    requires RowMoved(w.db, db, w.flights[r].escrow, StatusAfter(RailOf(w, r), w.flights[r]))
    ensures PayoutInv(if w.flights[r].answer == Threw then Land(w.(db := db), r) else w.(db := db))
  {
    hide PayoutInv, Paid, CallsFor, SettlingOn, Underway, RowMoved, RowOf;
    var flight := w.flights[r];
    var v := if flight.answer == Threw then Land(w.(db := db), r) else w.(db := db);
    var e := flight.escrow;
    MovedRow(w.db, db, e, StatusAfter(RailOf(w, r), flight));
    LandingFlights(w, Land(w, r), r);
    NoFlightMoves(w, w.(db := db));
    NoFlightMoves(Land(w, r), Land(w.(db := db), r));
    if RailOf(w, r) != Ckb {
      OwnerIsUnderway(w, r);
      assert map[r := flight] - {r} == map[];
      FinishedIsPaid(r, flight, CallsFor(w.calls, e), w.db.escrows[e]);
    }
    SettledHere(w, v, e);
  }

  lemma NextKeepsPayouts(w: World, step: Step)
    requires PayoutInv(w)
    ensures PayoutInv(Next(w, step))
  {
    hide *;
    match step {
      case BeginCreation(r, e, scope, sum, currency, rail) =>
        BeginCreationKeepsPayouts(w, r, e, scope, sum, currency, rail);
      case FinishCreation(r, status, hash) => FinishCreationKeepsPayouts(w, r, status, hash);
      case AbandonCreation(r) => AbandonCreationKeepsPayouts(w, r);
      case BeginFunding(r, e) => BeginFundingKeepsPayouts(w, r, e);
      case FinishFunding(r, status, hash) => FinishFundingKeepsPayouts(w, r, status, hash);
      case BeginSettlement(r, e, op) => BeginSettlementKeepsPayouts(w, r, e, op);
      case AdapterAnswers(r, status, hash) => AdapterAnswersKeepsPayouts(w, r, status, hash);
      case AdapterThrows(r) => AdapterThrowsKeepsPayouts(w, r);
      case FinishSettlement(r) => FinishSettlementKeepsPayouts(w, r);
      case Crash(r) => CrashKeepsPayouts(w, r);
      case LookAtChain(operation, hash, seen) => LookAtChainKeepsPayouts(w, operation, hash, seen);
      case _ => WorkKeepsPayouts(w, step);
    }
  }
}
