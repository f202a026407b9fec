/** Reachable states that show where the guarantees end. */
module Limits {
  import opened Results
  import opened Lifecycle
  import opened Ledger
  import opened Sums
  import opened Requests
  import opened World
  import opened Payouts
  import opened Guarantees
  import Calls
  import A = AgreementMachine
  import M = MilestoneMachine
  import E = EscrowMachine
  import R = Reconciliation

  const WHOLE: Scope := Scope(0, None)
  const PART: Scope := Scope(0, Some(0))

  /** Some run takes the first world to the last. */
  ghost predicate Leads(first: World, last: World) {
    exists steps :: Run(first, steps) == last
  }

  /** Some run ends in this world. */
  ghost predicate Reachable(w: World) {
    Leads(START, w)
  }

  lemma LeadsToItself(w: World)
    ensures Leads(w, w)
  {
    assert Run(w, []) == w;
  }

  lemma NextLeads(first: World, w: World, step: Step)
    requires Leads(first, w)
    ensures Leads(first, Next(w, step))
  {
    hide Next;
    var steps :| Run(first, steps) == w;
    assert (steps + [step])[..|steps|] == steps;
    assert Run(first, steps + [step]) == Next(w, step);
  }

  // ---------------------------------------------------------------- twice the amount

  /** One agreement, and one milestone for all of its amount. */
  ghost predicate Agreed(w: World, amount: nat, a: A.Status, m: M.Status) {
    && 0 in w.db.agreements && w.db.agreements[0].(settlement := Unfunded) == Agreement(amount, "CKB", a, Unfunded)
    && w.db.milestones == map[0 := Milestone(0, amount, 1, None, m)]
  }

  ghost predicate Blank(w: World) {
    w.db.escrows == map[] && w.db.transactions == map[] && w.db.proofs == map[] && w.db.reviews == map[]
    && w.flights == map[]
  }

  lemma DraftIsReachable(amount: nat) returns (w: World)
    requires 1 <= amount <= MAX_SHANNONS
    ensures Reachable(w) && Agreed(w, amount, A.Draft, M.Pending) && Blank(w)
  {
    var drafted := Next(START, NewAgreement(0, amount, "CKB"));
    LeadsToItself(START);
    NextLeads(START, START, NewAgreement(0, amount, "CKB"));
    assert MilestoneAmounts(drafted.db, 0) == map[];
    assert Allocated(drafted.db, 0) == 0;
    hide Allocated, Run;
    w := Next(drafted, NewMilestone(0, 0, amount, "CKB", None, None));
    NextLeads(START, drafted, NewMilestone(0, 0, amount, "CKB", None, None));
  }

  lemma ReserveWorks(w: World, r: Id, e: Id, scope: Scope, amount: nat, rail: Rail, a: A.Status, m: M.Status)
    requires 1 <= amount <= MAX_SHANNONS && Agreed(w, amount, a, m)
    requires scope in {WHOLE, PART} && (rail == Ckb ==> scope == PART)
    requires r !in w.flights && e !in w.db.escrows && Operation(e, LockTx) !in w.db.transactions
    requires forall f | f in w.db.escrows :: w.db.escrows[f].scope.milestone != scope.milestone
    ensures var v := Next(w, BeginCreation(r, e, scope, amount, "CKB", rail));
            && Agreed(v, amount, a, m) && v.db.proofs == w.db.proofs && v.db.reviews == w.db.reviews
            && v.db.escrows == w.db.escrows[e := Escrow(scope, amount, "CKB", rail, E.NotCreated)]
            && v.db.transactions == w.db.transactions[Operation(e, LockTx) := Transaction(TxPending, None)]
            && v.flights == w.flights[r := Creating(e)]
  {
    assert TerminalEscrows(w.db, scope) == {} && EscrowsIn(w.db, scope, E.ACTIVE) == {};
    hide TerminalEscrows, EscrowsIn;
  }

  lemma TwoEscrowsTotal(db: Ledger, x: Escrow, y: Escrow)
    requires db.escrows == map[][0 := x][1 := y]
    requires x.scope.agreement == 0 && y.scope.agreement == 0
    ensures Total(EscrowAmounts(db, 0)) == x.amount + y.amount
  {
    var none: map<Id, nat> := map[];
    assert EscrowAmounts(db, 0) == none[0 := x.amount][1 := y.amount];
    TotalInsert(none, 0, x.amount);
    TotalInsert(none[0 := x.amount], 1, y.amount);
    assert Total(none) == 0;
  }

  lemma BothScopesEscrowed(amount: nat) returns (w: World)
    requires 1 <= amount <= MAX_SHANNONS
    ensures Reachable(w) && 0 in w.db.agreements && w.db.agreements[0].amount == amount
    ensures w.db.escrows == map[][0 := Escrow(WHOLE, amount, "CKB", Mock, E.NotCreated)]
                                 [1 := Escrow(PART, amount, "CKB", Mock, E.NotCreated)]
  {
    hide Leads, Next;
    var w0 := DraftIsReachable(amount);
    var begin, again := BeginCreation(0, 0, WHOLE, amount, "CKB", Mock), BeginCreation(1, 1, PART, amount, "CKB", Mock);
    ReserveWorks(w0, 0, 0, WHOLE, amount, Mock, A.Draft, M.Pending);
    NextLeads(START, w0, begin);
    ReserveWorks(Next(w0, begin), 1, 1, PART, amount, Mock, A.Draft, M.Pending);
    NextLeads(START, Next(w0, begin), again);
    w := Next(Next(w0, begin), again);
  }

  /** Whatever its amount, an agreement and its only milestone may each have an escrow for all of it. */
  lemma TwiceTheAmountIsReachable(amount: nat)
    requires 1 <= amount <= MAX_SHANNONS
    ensures exists w :: Reachable(w) && 0 in w.db.agreements && w.db.agreements[0].amount == amount
                        && Total(EscrowAmounts(w.db, 0)) == 2 * amount
  {
    hide Leads, Total, EscrowAmounts;
    var w := BothScopesEscrowed(amount);
    TwoEscrowsTotal(w.db, w.db.escrows[0], w.db.escrows[1]);
  }

  datatype Part = Whole | OfMilestone

  /** The kinds of scope this agreement has escrows for. */
  ghost function PartsOf(db: Ledger, a: Id): set<Part> {
    (if WholeEscrows(db, a) == map[] then {} else {Whole})
    + (if MilestoneEscrowAmounts(db, a) == map[] then {} else {OfMilestone})
  }

  /** Over all runs, escrows for these kinds of scope hold together at most the amount of their agreement. */
  ghost predicate AlwaysFit(parts: set<Part>) {
    forall w, a | Reachable(w) && a in w.db.agreements && PartsOf(w.db, a) <= parts ::
      Total(EscrowAmounts(w.db, a)) <= w.db.agreements[a].amount
  }

  /** The escrows of an agreement fit in its amount exactly if they are not for the whole and for milestones at once. */
  lemma FitUnlessBoth(parts: set<Part>)
    ensures AlwaysFit(parts) <==> parts != {Whole, OfMilestone}
  {
    if parts == {Whole, OfMilestone} {
      TwiceTheAmountIsReachable(1);
      hide Leads, Total, EscrowAmounts, PartsOf;
      var w :| Reachable(w) && 0 in w.db.agreements && w.db.agreements[0].amount == 1 && Total(EscrowAmounts(w.db, 0)) == 2;
      assert PartsOf(w.db, 0) <= parts by { AllParts(PartsOf(w.db, 0)); }
    } else {
      forall w, a | Reachable(w) && a in w.db.agreements && PartsOf(w.db, a) <= parts
        ensures Total(EscrowAmounts(w.db, a)) <= w.db.agreements[a].amount
      {
        OneKindFits(w, a, parts);
      }
    }
  }

  lemma AllParts(parts: set<Part>)
    ensures parts <= {Whole, OfMilestone}
  {
    forall part | part in parts ensures part in {Whole, OfMilestone} {
      assert part == Whole || part == OfMilestone;
    }
  }

  lemma OneKindFits(w: World, a: Id, parts: set<Part>)
    requires Reachable(w) && a in w.db.agreements && PartsOf(w.db, a) <= parts && parts != {Whole, OfMilestone}
    ensures Total(EscrowAmounts(w.db, a)) <= w.db.agreements[a].amount
  {
    hide Run, Total, EscrowAmounts, WholeEscrows, MilestoneEscrowAmounts;
    var steps :| Run(START, steps) == w;
    EscrowsFitOnce(steps, a);
    AllParts(parts);
    assert Whole !in parts || OfMilestone !in parts;
    assert Whole in PartsOf(w.db, a) <==> WholeEscrows(w.db, a) != map[];
    assert OfMilestone in PartsOf(w.db, a) <==> MilestoneEscrowAmounts(w.db, a) != map[];
  }

  // ---------------------------------------------------------------- released, then refunded, on the chain

  /** The transactions of the milestone's escrow. */
  datatype Rows = Rows(lock: Option<Transaction>, release: Option<Transaction>, refund: Option<Transaction>) {
    function Of(kind: Kind): Option<Transaction> {
      match kind
      case LockTx => lock
      case ReleaseTx => release
      case RefundTx => refund
    }

    function With(kind: Kind, row: Transaction): Rows {
      match kind
      case LockTx => this.(lock := Some(row))
      case ReleaseTx => this.(release := Some(row))
      case RefundTx => this.(refund := Some(row))
    }
  }

  function RowOfKind(db: Ledger, kind: Kind): Option<Transaction> {
    if Operation(0, kind) in db.transactions then Some(db.transactions[Operation(0, kind)]) else None
  }

  function RowsIn(db: Ledger): Rows {
    Rows(RowOfKind(db, LockTx), RowOfKind(db, ReleaseTx), RowOfKind(db, RefundTx))
  }

  /** An escrow on the whole that nobody paid into, and one for the milestone on the chain. */
  function Both(e: E.Status): map<Id, Escrow> {
    map[1 := Escrow(WHOLE, 10, "CKB", Mock, E.NotCreated)][0 := Escrow(PART, 10, "CKB", Ckb, e)]
  }

  ghost predicate Stands(w: World, a: A.Status, m: M.Status, e: E.Status, rows: Rows) {
    Agreed(w, 10, a, m) && w.db.escrows == Both(e) && RowsIn(w.db) == rows && w.flights == map[]
  }

  ghost predicate NothingSubmitted(w: World) {
    w.db.proofs == map[] && w.db.reviews == map[]
  }

  function Sent(status: TxStatus, hash: Hash): Transaction {
    Transaction(status, Some(hash))
  }

  lemma RequiredIsReachable() returns (w: World)
    ensures Reachable(w) && Agreed(w, 10, A.FundingRequired, M.Pending) && Blank(w)
  {
    hide Leads, Run;
    var w0 := DraftIsReachable(10);
    NextLeads(START, w0, Accept(0));
    NextLeads(START, Next(w0, Accept(0)), RequireFunding(0));
    w := Next(Next(w0, Accept(0)), RequireFunding(0));
  }

  lemma CreationWorks(w: World)
    requires Agreed(w, 10, A.FundingRequired, M.Pending) && NothingSubmitted(w)
    requires w.db.escrows == Both(E.NotCreated) && w.flights == map[0 := Creating(0)]
    requires RowsIn(w.db) == Rows(Some(Transaction(TxPending, None)), None, None)
    ensures var v := Next(w, FinishCreation(0, E.AwaitingFunding, Some(1)));
            && Stands(v, A.FundingRequired, M.Pending, E.AwaitingFunding, Rows(Some(Sent(Broadcast, 1)), None, None))
            && NothingSubmitted(v)
  {
  }

  lemma LockedIsReachable() returns (w: World)
    ensures Reachable(w) && NothingSubmitted(w)
    ensures Stands(w, A.FundingRequired, M.Pending, E.AwaitingFunding, Rows(Some(Sent(Broadcast, 1)), None, None))
  {
    hide Leads, Run, ReserveCreation, FinalizeCreation;
    var w0 := RequiredIsReachable();
    var whole, part := BeginCreation(1, 1, WHOLE, 10, "CKB", Mock), BeginCreation(0, 0, PART, 10, "CKB", Ckb);
    ReserveWorks(w0, 1, 1, WHOLE, 10, Mock, A.FundingRequired, M.Pending);
    NextLeads(START, w0, whole);
    NextLeads(START, Next(w0, whole), Crash(1));
    var w1 := Next(Next(w0, whole), Crash(1));
    ReserveWorks(w1, 0, 0, PART, 10, Ckb, A.FundingRequired, M.Pending);
    NextLeads(START, w1, part);
    hide Next;
    CreationWorks(Next(w1, part));
    NextLeads(START, Next(w1, part), FinishCreation(0, E.AwaitingFunding, Some(1)));
    w := Next(Next(w1, part), FinishCreation(0, E.AwaitingFunding, Some(1)));
  }

  // ---------------------------------------------------------------- looks

  function AgreementAfter(a: A.Status, event: Option<R.Event>): A.Status {
    if event == Some(R.EscrowFunded) && a == A.FundingRequired then A.Funded else a
  }

  function MilestoneAfter(m: M.Status, event: Option<R.Event>): M.Status {
    if event == Some(R.EscrowFunded) && m == M.Pending then M.Funded
    else if event == Some(R.EscrowReleased) && M.CanTransition(m, M.Released) then M.Released
    else if event == Some(R.EscrowRefunded) && M.CanTransition(m, M.Refunded) then M.Refunded
    else m
  }

  /** A look writes the escrow and the row looked at; the agreement cannot follow while its other escrow is open. */
  lemma LookWorks(w: World, kind: Kind, hash: Hash, seen: R.Observation, a: A.Status, m: M.Status, e: E.Status, rows: Rows)
    requires Stands(w, a, m, e, rows) && a in {A.FundingRequired, A.Approved} && m in {M.Pending, M.Approved, M.Released}
    requires rows.Of(kind).Some? && rows.Of(kind).value.hash == Some(hash)
    requires R.Observe(kind, R.View(e, rows.Of(kind).value.status), seen).Applied?
    ensures var v, outcome := Next(w, LookAtChain(Operation(0, kind), hash, seen)),
                              R.Observe(kind, R.View(e, rows.Of(kind).value.status), seen);
            && Stands(v, AgreementAfter(a, outcome.event), MilestoneAfter(m, outcome.event), outcome.view.escrow,
                      rows.With(kind, Sent(outcome.view.transaction, hash)))
            && (NothingSubmitted(w) ==> NothingSubmitted(v))
  {
    hide R.Observe, Follow, M.CanTransition, Reconcile;
    var op, row := Operation(0, kind), rows.Of(kind).value;
    var outcome := R.Observe(kind, R.View(e, row.status), seen);
    var written := Written(w.db, op, outcome.view);
    ReconcileFollows(w.db, op, hash, seen);
    FollowWorks(w.(db := written), a, m, outcome.view.escrow, outcome.event);
    LookReconciles(w, op, hash, seen);
    hide Next;
  }

  /** The two rows that a look writes. */
  function Written(db: Ledger, op: Operation, view: R.View): Ledger
    requires op in db.transactions && op.escrow in db.escrows
  {
    db.(escrows := db.escrows[op.escrow := db.escrows[op.escrow].(status := view.escrow)],
        transactions := db.transactions[op := db.transactions[op].(status := view.transaction)])
  }

  lemma ReconcileFollows(db: Ledger, op: Operation, hash: Hash, seen: R.Observation)
    requires op in db.transactions && op.escrow in db.escrows && db.transactions[op].hash == Some(hash)
    requires db.escrows[op.escrow].scope == PART
    requires R.Observe(op.kind, R.View(db.escrows[op.escrow].status, db.transactions[op].status), seen).Applied?
    ensures var outcome := R.Observe(op.kind, R.View(db.escrows[op.escrow].status, db.transactions[op].status), seen);
            Reconcile(db, op, hash, seen) == Ok(Follow(Written(db, op, outcome.view), outcome.event))
  {
    hide R.Observe, FundScope, Settle;
  }

  lemma LookReconciles(w: World, op: Operation, hash: Hash, seen: R.Observation)
    requires op.escrow in w.db.escrows && w.db.escrows[op.escrow].rail == Ckb
    ensures Next(w, LookAtChain(op, hash, seen)) == After(w, Reconcile(w.db, op, hash, seen))
  {
    hide Reconcile;
  }

  function Follow(db: Ledger, event: Option<R.Event>): Ledger {
    if event == Some(R.EscrowFunded) then FundScope(db, PART)
    else if event == Some(R.EscrowReleased) then Settle(db, PART, ToWorker)
    else if event == Some(R.EscrowRefunded) then Settle(db, PART, ToClient)
    else db
  }

  lemma FollowWorks(w: World, a: A.Status, m: M.Status, e: E.Status, event: Option<R.Event>)
    requires Agreed(w, 10, a, m) && w.db.escrows == Both(e)
    requires a in {A.FundingRequired, A.Approved} && m in {M.Pending, M.Approved, M.Released}
    ensures var after := Follow(w.db, event);
            && Agreed(w.(db := after), 10, AgreementAfter(a, event), MilestoneAfter(m, event))
            && after.escrows == w.db.escrows && after.transactions == w.db.transactions
            && after.proofs == w.db.proofs && after.reviews == w.db.reviews
  {
    hide FundScope, Settle;
    FundScopeLeavesEscrows(w.db, PART);
    Calls.FundScopeLeavesTransactions(w.db, PART);
    SettleLeavesEscrows(w.db, PART, ToWorker);
    SettleLeavesEscrows(w.db, PART, ToClient);
    Calls.SettleLeavesTransactions(w.db, PART, ToWorker);
    Calls.SettleLeavesTransactions(w.db, PART, ToClient);
    FundingFollows(w, a, m);
    SettlementFollows(w, a, m, e, ToWorker);
    SettlementFollows(w, a, m, e, ToClient);
    hide Agreed, M.CanTransition;
  }

  lemma FundingFollows(w: World, a: A.Status, m: M.Status)
    requires Agreed(w, 10, a, m) && a in {A.FundingRequired, A.Approved} && m in {M.Pending, M.Approved, M.Released}
    ensures var after := FundScope(w.db, PART);
            && Agreed(w.(db := after), 10, AgreementAfter(a, Some(R.EscrowFunded)), MilestoneAfter(m, Some(R.EscrowFunded)))
            && after.proofs == w.db.proofs && after.reviews == w.db.reviews
  {
  }

  lemma SettlementFollows(w: World, a: A.Status, m: M.Status, e: E.Status, op: Settlement)
    requires Agreed(w, 10, a, m) && w.db.escrows == Both(e)
    ensures var after, event := Settle(w.db, PART, op), Some(if op == ToWorker then R.EscrowReleased else R.EscrowRefunded);
            && Agreed(w.(db := after), 10, a, MilestoneAfter(m, event))
            && after.proofs == w.db.proofs && after.reviews == w.db.reviews
  {
    hide RollUp, SettleMilestone, AgreementAfter, MilestoneAfter;
    var event := Some(if op == ToWorker then R.EscrowReleased else R.EscrowRefunded);
    MilestoneFollows(w, a, m, op);
    AgreementStays(SettleMilestone(w.db, PART, op), op);
    hide Agreed;
  }

  lemma AgreementStays(db: Ledger, op: Settlement)
    requires 1 in db.escrows && db.escrows[1].scope == WHOLE && db.escrows[1].status == E.NotCreated
    ensures RollUp(db, 0, op) == db
  {
    assert 1 in EscrowsOf(db, 0);
    hide RollUpTarget;
  }

  lemma MilestoneFollows(w: World, a: A.Status, m: M.Status, op: Settlement)
    requires Agreed(w, 10, a, m)
    ensures var after, event := SettleMilestone(w.db, PART, op),
                                Some(if op == ToWorker then R.EscrowReleased else R.EscrowRefunded);
            && Agreed(w.(db := after), 10, a, MilestoneAfter(m, event)) && after.escrows == w.db.escrows
            && after.proofs == w.db.proofs && after.reviews == w.db.reviews
  {
    hide M.CanTransition;
  }

  lemma LookLeads(first: World, w: World, kind: Kind, hash: Hash, seen: R.Observation,
                  a: A.Status, m: M.Status, e: E.Status, rows: Rows) returns (v: World)
    requires Leads(first, w) && Stands(w, a, m, e, rows)
    requires a in {A.FundingRequired, A.Approved} && m in {M.Pending, M.Approved, M.Released}
    requires rows.Of(kind).Some? && rows.Of(kind).value.hash == Some(hash)
    requires R.Observe(kind, R.View(e, rows.Of(kind).value.status), seen).Applied?
    ensures Leads(first, v)
    ensures var outcome := R.Observe(kind, R.View(e, rows.Of(kind).value.status), seen);
            && Stands(v, AgreementAfter(a, outcome.event), MilestoneAfter(m, outcome.event), outcome.view.escrow,
                      rows.With(kind, Sent(outcome.view.transaction, hash)))
            && (NothingSubmitted(w) ==> NothingSubmitted(v))
  {
    hide Leads, Next, R.Observe, Stands, AgreementAfter, MilestoneAfter;
    LookWorks(w, kind, hash, seen, a, m, e, rows);
    v := Next(w, LookAtChain(Operation(0, kind), hash, seen));
    NextLeads(first, w, LookAtChain(Operation(0, kind), hash, seen));
  }

  // ---------------------------------------------------------------- settlements

  lemma ApprovalWorks(w: World, rows: Rows)
    requires Stands(w, A.Funded, M.Funded, E.Funded, rows) && NothingSubmitted(w)
    ensures Stands(Next(Next(w, Submit(0, 0, 0)), Judge(0, 0, ApproveProof)), A.Approved, M.Approved, E.Funded, rows)
  {
    var v := Next(w, Submit(0, 0, 0));
    assert v.db.proofs == map[0 := Proof(0, 0, Submitted)];
    assert Stands(v, A.ProofSubmitted, M.ProofSubmitted, E.Funded, rows);
  }

  lemma ReservationWorks(w: World, op: Settlement, m: M.Status, rows: Rows)
    requires Stands(w, A.Approved, m, E.Funded, rows) && rows.Of(KindOf(op)) == None
    requires op == ToWorker ==> m == M.Approved
    ensures var v := Next(w, BeginSettlement(0, 0, op));
            && Agreed(v, 10, A.Approved, m) && v.db.escrows == Both(PendingStatus(op))
            && RowsIn(v.db) == rows.With(KindOf(op), Transaction(TxPending, None))
            && v.flights == map[0 := Settling(0, op, Unanswered)]
  {
  }

  /** A settlement whose transaction the adapter broadcasts. */
  lemma AnswerWorks(w: World, op: Settlement, hash: Hash)
    requires w.db.escrows == Both(PendingStatus(op)) && w.flights == map[0 := Settling(0, op, Unanswered)]
    requires Operation(0, KindOf(op)) in w.db.transactions
    ensures var v := Next(Next(Next(w, AdapterAnswers(0, PendingStatus(op), Some(hash))), FinishSettlement(0)), Crash(0));
            && v.db == w.db.(transactions := w.db.transactions[Operation(0, KindOf(op)) := Sent(Broadcast, hash)])
            && v.flights == map[]
  {
    hide Next, FinalizeSettlement;
    AnsweredFlight(w, op, hash);
    var v := Next(w, AdapterAnswers(0, PendingStatus(op), Some(hash)));
    FinishedFlight(v, op, hash);
    BroadcastRow(w.db, op, hash);
    assert v.flights - {0} == map[];
  }

  lemma FinishedFlight(v: World, op: Settlement, hash: Hash)
    requires 0 in v.db.escrows && v.flights == map[0 := Settling(0, op, Answered(PendingStatus(op), Some(hash)))]
    ensures Next(v, FinishSettlement(0)) == After(v, FinalizeSettlement(v.db, 0, op, PendingStatus(op), Some(hash)))
    ensures forall x :: Next(x, Crash(0)) == Land(x, 0)
  {
    hide FinalizeSettlement;
  }

  lemma AnsweredFlight(w: World, op: Settlement, hash: Hash)
    requires w.db.escrows == Both(PendingStatus(op)) && w.flights == map[0 := Settling(0, op, Unanswered)]
    ensures var v := Next(w, AdapterAnswers(0, PendingStatus(op), Some(hash)));
            v.db == w.db && v.flights == map[0 := Settling(0, op, Answered(PendingStatus(op), Some(hash)))]
  {
  }

  lemma BroadcastRow(db: Ledger, op: Settlement, hash: Hash)
    requires 0 in db.escrows && db.escrows[0].rail == Ckb && db.escrows[0].status == PendingStatus(op)
    requires Operation(0, KindOf(op)) in db.transactions
    ensures FinalizeSettlement(db, 0, op, PendingStatus(op), Some(hash))
            == Ok(db.(transactions := db.transactions[Operation(0, KindOf(op)) := Sent(Broadcast, hash)]))
  {
    hide Settle;
    assert db.escrows[0 := db.escrows[0]] == db.escrows;
  }

  lemma BroadcastLeads(first: World, w: World, op: Settlement, hash: Hash, m: M.Status, rows: Rows) returns (v: World)
    requires Leads(first, w) && Stands(w, A.Approved, m, E.Funded, rows) && rows.Of(KindOf(op)) == None
    requires op == ToWorker ==> m == M.Approved
    ensures Leads(first, v) && Stands(v, A.Approved, m, PendingStatus(op), rows.With(KindOf(op), Sent(Broadcast, hash)))
  {
    hide Leads, Next;
    var begin, answer := BeginSettlement(0, 0, op), AdapterAnswers(0, PendingStatus(op), Some(hash));
    ReservationWorks(w, op, m, rows);
    AnswerWorks(Next(w, begin), op, hash);
    NextLeads(first, w, begin);
    NextLeads(first, Next(w, begin), answer);
    NextLeads(first, Next(Next(w, begin), answer), FinishSettlement(0));
    NextLeads(first, Next(Next(Next(w, begin), answer), FinishSettlement(0)), Crash(0));
    v := Next(Next(Next(Next(w, begin), answer), FinishSettlement(0)), Crash(0));
  }

  /** What the five looks of the story see. */
  lemma TheStory()
    ensures R.Observe(LockTx, R.View(E.AwaitingFunding, Broadcast), R.SeenConfirmed)
            == R.Applied(R.View(E.Funded, Confirmed), Some(R.EscrowFunded))
    ensures R.Observe(ReleaseTx, R.View(E.ReleasePending, Broadcast), R.SeenConfirmed)
            == R.Applied(R.View(E.Released, Confirmed), Some(R.EscrowReleased))
    ensures R.Observe(LockTx, R.View(E.Released, Confirmed), R.SeenUnknown)
            == R.Applied(R.View(E.ReconciliationRequired, Reorged), Some(R.ReorgDetected))
    ensures R.Observe(LockTx, R.View(E.ReconciliationRequired, Reorged), R.SeenConfirmed)
            == R.Applied(R.View(E.Funded, Confirmed), Some(R.EscrowFunded))
    ensures R.Observe(RefundTx, R.View(E.RefundPending, Broadcast), R.SeenConfirmed)
            == R.Applied(R.View(E.Refunded, Confirmed), Some(R.EscrowRefunded))
  {
  }

  lemma FundedIsReachable() returns (w: World)
    ensures Reachable(w) && Stands(w, A.Approved, M.Approved, E.Funded, Rows(Some(Sent(Confirmed, 1)), None, None))
  {
    hide Leads, Next, Stands, R.Observe;
    TheStory();
    var w0 := LockedIsReachable();
    var w1 := LookLeads(START, w0, LockTx, 1, R.SeenConfirmed, A.FundingRequired, M.Pending, E.AwaitingFunding,
                              Rows(Some(Sent(Broadcast, 1)), None, None));
    ApprovalWorks(w1, Rows(Some(Sent(Confirmed, 1)), None, None));
    NextLeads(START, w1, Submit(0, 0, 0));
    NextLeads(START, Next(w1, Submit(0, 0, 0)), Judge(0, 0, ApproveProof));
    w := Next(Next(w1, Submit(0, 0, 0)), Judge(0, 0, ApproveProof));
  }

  /** Two worlds of one run, the earlier first, in which the escrow is released and refunded. */
  ghost predicate BothEnds(first: World, last: World, e: Id) {
    && Reachable(first) && e in first.db.escrows && first.db.escrows[e].status == E.Released
    && Leads(first, last) && e in last.db.escrows && last.db.escrows[e].status == E.Refunded
  }

  lemma ReleasedIsReachable() returns (w: World)
    ensures Reachable(w)
    ensures Stands(w, A.Approved, M.Released, E.Released, Rows(Some(Sent(Confirmed, 1)), Some(Sent(Confirmed, 2)), None))
  {
    hide Leads, Next, Stands, R.Observe;
    TheStory();
    var w0 := FundedIsReachable();
    var w1 := BroadcastLeads(START, w0, ToWorker, 2, M.Approved, Rows(Some(Sent(Confirmed, 1)), None, None));
    w := LookLeads(START, w1, ReleaseTx, 2, R.SeenConfirmed, A.Approved, M.Approved, E.ReleasePending,
                         Rows(Some(Sent(Confirmed, 1)), Some(Sent(Broadcast, 2)), None));
  }

  /** The node loses sight of the lock transaction and finds it again, and the escrow can be refunded. */
  lemma RefundFollows(first: World) returns (last: World)
    requires Stands(first, A.Approved, M.Released, E.Released, Rows(Some(Sent(Confirmed, 1)), Some(Sent(Confirmed, 2)), None))
    ensures Leads(first, last) && last.db.escrows == Both(E.Refunded)
  {
    hide Leads, Next, R.Observe, Agreed;
    TheStory();
    LeadsToItself(first);
    var locked, released := Some(Sent(Confirmed, 1)), Some(Sent(Confirmed, 2));
    var lost := LookLeads(first, first, LockTx, 1, R.SeenUnknown, A.Approved, M.Released, E.Released,
                          Rows(locked, released, None));
    var back := LookLeads(first, lost, LockTx, 1, R.SeenConfirmed, A.Approved, M.Released, E.ReconciliationRequired,
                          Rows(Some(Sent(Reorged, 1)), released, None));
    var sent := BroadcastLeads(first, back, ToClient, 3, M.Released, Rows(locked, released, None));
    last := LookLeads(first, sent, RefundTx, 3, R.SeenConfirmed, A.Approved, M.Released, E.RefundPending,
                      Rows(locked, released, Some(Sent(Broadcast, 3))));
  }

  /**
   A release that was confirmed is taken back by a reorganisation, and the refund confirmed then: on the chain the
   ledger alone does not keep the two apart.
   */
  lemma ReleasedThenRefunded() returns (first: World, last: World)
    ensures BothEnds(first, last, 0) && first.db.escrows[0].rail == Ckb
  {
    hide Leads;
    first := ReleasedIsReachable();
    last := RefundFollows(first);
  }

  /** No run, from any reachable world, both releases and refunds an escrow of this rail. */
  ghost predicate Exclusive(rail: Rail) {
    forall first, last, e | BothEnds(first, last, e) :: first.db.escrows[e].rail != rail
  }

  /** Releasing and refunding exclude each other exactly where the reconciler never runs. */
  lemma ExclusionIsOffChain(rail: Rail)
    ensures Exclusive(rail) <==> rail != Ckb
  {
    if rail == Ckb {
      var first, last := ReleasedThenRefunded();
      hide BothEnds;
    } else {
      forall first, last, e | BothEnds(first, last, e) ensures first.db.escrows[e].rail != rail {
        if first.db.escrows[e].rail == rail {
          ReleaseIsFinal(first, last, e);
        }
      }
    }
  }

  lemma ReleaseIsFinal(first: World, last: World, e: Id)
    requires Reachable(first) && Leads(first, last) && SettledOffChain(first, e)
    ensures RowOf(last.db, e) == RowOf(first.db, e)
  {
    hide Run, PayoutInv, SettledOffChain;
    var before :| Run(START, before) == first;
    var steps :| Run(first, steps) == last;
    NobodyIsPaidAtStart();
    RunKeepsPayouts(START, before);
    PayoutsAreFinal(first, steps, e);
  }

  /** Even there, the adapter must have carried out both: with a signer for one of the parties only, one end remains. */
  lemma BothEndsTakeBothCalls(first: World, last: World, e: Id)
    requires BothEnds(first, last, e)
    ensures Call(e, ToWorker) in last.calls && Call(e, ToClient) in last.calls
  {
    hide Run;
    var before :| Run(START, before) == first;
    var steps :| Run(first, steps) == last;
    Calls.NobodyWasCalled(e, ToWorker);
    Calls.NobodyWasCalled(e, ToClient);
    Calls.RunKeepsCalled(START, before, e, ToWorker);
    Calls.RunKeepsCalled(START, before, e, ToClient);
    Calls.RunKeepsCalled(first, steps, e, ToWorker);
    Calls.RunKeepsCalled(first, steps, e, ToClient);
  }
}
