/**
 What one chain observation does to an escrow and the transaction it observes:
 the transaction step of the reconciliation worker, and what whole sequences
 of observations do.
 */
module Reconciliation {
  import opened Results
  import opened Ledger
  import E = EscrowMachine

  datatype Observation = SeenPending | SeenCommitted | SeenConfirmed | SeenRejected | SeenUnknown

  datatype Event =
    | EscrowFunded
    | EscrowReleased
    | EscrowRefunded
    | EscrowFailed
    | ReorgDetected
    | ReconciliationNeeded

  datatype View = View(escrow: E.Status, transaction: TxStatus)

  datatype Outcome = Refused | Applied(view: View, event: Option<Event>)

  /** A confirmation seen earlier is gone. */
  predicate IsReorg(view: View, seen: Observation) {
    && (view.transaction == Confirmed || view.escrow in E.TERMINAL || view.transaction == Reorged)
    && seen != SeenConfirmed && seen != SeenCommitted
  }

  function EscrowStatusAfter(kind: Kind, current: E.Status, seen: Observation, reorg: bool): E.Status {
    if reorg || seen == SeenUnknown then E.ReconciliationRequired
    else if seen == SeenRejected then E.Failed
    else if kind == LockTx then
      if seen == SeenConfirmed then E.Funded
      else if seen == SeenCommitted then E.FundingDetected
      else if current == E.ReconciliationRequired then E.AwaitingFunding
      else current
    else if seen == SeenConfirmed then (if kind == ReleaseTx then E.Released else E.Refunded)
    else if current == E.ReconciliationRequired then
      (if kind == ReleaseTx then E.ReleasePending else E.RefundPending)
    else current
  }

  function TxStatusAfter(seen: Observation, reorg: bool): TxStatus {
    if reorg then Reorged
    else
      match seen
      case SeenUnknown => TxReconciliationRequired
      case SeenPending => TxPending
      case SeenCommitted => Committed
      case SeenConfirmed => Confirmed
      case SeenRejected => TxRejected
  }

  function EventOf(view: View, next: E.Status, reorg: bool): Option<Event> {
    if reorg && view.transaction != Reorged then Some(ReorgDetected)
    else if next == view.escrow then None
    else
      match next
      case ReconciliationRequired => Some(ReconciliationNeeded)
      case Failed => Some(EscrowFailed)
      case Funded => Some(EscrowFunded)
      case Released => Some(EscrowReleased)
      case Refunded => Some(EscrowRefunded)
      case _ => None
  }

  function Observe(kind: Kind, view: View, seen: Observation): Outcome {
    var reorg := IsReorg(view, seen);
    var next := EscrowStatusAfter(kind, view.escrow, seen, reorg);
    if next != view.escrow && !E.CanTransition(view.escrow, next) then Refused
    else Applied(View(next, TxStatusAfter(seen, reorg)), EventOf(view, next, reorg))
  }

  /** What a look does to a settled escrow: only a reorganisation takes it back, and always does. */
  lemma SettledLook(kind: Kind, view: View, seen: Observation)
    requires view.escrow in E.TERMINAL
    ensures var outcome := Observe(kind, view, seen);
            if IsReorg(view, seen) then outcome.Applied? && outcome.view.escrow == E.ReconciliationRequired
            else outcome.Applied? ==> outcome.view.escrow == view.escrow
  {
  }

  // ---------------------------------------------------------------- sequences

  /** The view and the events after a sequence of observations; a refused one changes nothing. */
  datatype Trace = Trace(view: View, events: seq<Event>)

  function After(trace: Trace, outcome: Outcome): Trace {
    match outcome
    case Refused => trace
    case Applied(view, None) => Trace(view, trace.events)
    case Applied(view, Some(event)) => Trace(view, trace.events + [event])
  }

  function ObserveAll(kind: Kind, start: View, seen: seq<Observation>): Trace {
    if seen == [] then Trace(start, [])
    else
      var before := ObserveAll(kind, start, seen[..|seen| - 1]);
      After(before, Observe(kind, before.view, seen[|seen| - 1]))
  }

  /** The sequence with every run of equal neighbours reduced to one. */
  function Collapse(seen: seq<Observation>): seq<Observation> {
    if |seen| <= 1 then seen
    else
      var front := seen[..|seen| - 1];
      if seen[|seen| - 1] == seen[|seen| - 2] then Collapse(front)
      else Collapse(front) + [seen[|seen| - 1]]
  }

  /** Seeing the same thing again changes nothing and tells nobody. */
  lemma SecondLookIsSilent(kind: Kind, view: View, seen: Observation)
    ensures var once := After(Trace(view, []), Observe(kind, view, seen));
            After(Trace(once.view, once.events), Observe(kind, once.view, seen)) == once
  {
  }

  lemma {:induction false} CollapseKeepsLast(seen: seq<Observation>)
    requires seen != []
    ensures Collapse(seen) != [] && Collapse(seen)[|Collapse(seen)| - 1] == seen[|seen| - 1]
  {
    if |seen| > 1 {
      CollapseKeepsLast(seen[..|seen| - 1]);
    }
  }

  lemma ObserveLast(kind: Kind, start: View, seen: seq<Observation>, last: Observation)
    ensures var before := ObserveAll(kind, start, seen);
            ObserveAll(kind, start, seen + [last]) == After(before, Observe(kind, before.view, last))
  {
    hide Observe, After;
    assert (seen + [last])[..|seen|] == seen;
  }

  lemma SecondLookAtEnd(kind: Kind, start: View, seen: seq<Observation>)
    requires |seen| > 1 && seen[|seen| - 1] == seen[|seen| - 2]
    ensures ObserveAll(kind, start, seen) == ObserveAll(kind, start, seen[..|seen| - 1])
  {
    var last, prefix := seen[|seen| - 1], seen[..|seen| - 2];
    assert seen == prefix + [last] + [last] && seen[..|seen| - 1] == prefix + [last];
    ObserveLast(kind, start, prefix, last);
    ObserveLast(kind, start, prefix + [last], last);
    SecondLookIsSilent(kind, ObserveAll(kind, start, prefix).view, last);
    hide Observe, ObserveAll;
  }

  /** Repeated observations give the statuses and the events of the sequence without repeats. */
  lemma {:induction false} RepeatsAreInvisible(kind: Kind, start: View, seen: seq<Observation>)
    ensures ObserveAll(kind, start, seen) == ObserveAll(kind, start, Collapse(seen))
  {
    hide Observe, After, ObserveAll;
    if |seen| > 1 {
      var front, last := seen[..|seen| - 1], seen[|seen| - 1];
      RepeatsAreInvisible(kind, start, front);
      if last == seen[|seen| - 2] {
        SecondLookAtEnd(kind, start, seen);
      } else {
        assert seen == front + [last];
        ObserveLast(kind, start, front, last);
        ObserveLast(kind, start, Collapse(front), last);
      }
    }
  }

  // ---------------------------------------------------------------- looks at a lock transaction

  /** A confirmation was seen before, and this look does not see the transaction in a block any more. */
  predicate TakenBack(view: View, seen: Observation) {
    && (view.transaction in {Confirmed, Reorged} || view.escrow in {E.Released, E.Refunded})
    && seen in {SeenPending, SeenRejected, SeenUnknown}
  }

  /** A confirmation that is gone sends the escrow to reconciliation, and is announced once. */
  lemma TakenBackLook(kind: Kind, view: View, seen: Observation)
    requires TakenBack(view, seen)
    ensures Observe(kind, view, seen)
            == if view.escrow == E.Failed then Refused
               else Applied(View(E.ReconciliationRequired, Reorged),
                            if view.transaction != Reorged then Some(ReorgDetected)
                            else if view.escrow != E.ReconciliationRequired then Some(ReconciliationNeeded) else None)
  {
  }

  /**
   One look at a lock transaction, case by case.  Only a confirmation funds the
   escrow; a commitment is detected and not announced; a transaction that waits
   leaves the escrow or ends its reconciliation.
   */
  lemma LockLook(view: View, seen: Observation)
    requires !TakenBack(view, seen)
    ensures var outcome := Observe(LockTx, view, seen);
            match seen
            case SeenConfirmed =>
              if view.escrow == E.Funded then outcome == Applied(View(E.Funded, Confirmed), None)
              else if view.escrow in {E.AwaitingFunding, E.FundingDetected, E.ReconciliationRequired, E.Failed}
              then outcome == Applied(View(E.Funded, Confirmed), Some(EscrowFunded))
              else outcome == Refused
            case SeenCommitted =>
              if view.escrow in {E.AwaitingFunding, E.FundingDetected, E.ReconciliationRequired}
              then outcome == Applied(View(E.FundingDetected, Committed), None)
              else outcome == Refused
            case SeenPending =>
              if view.escrow == E.ReconciliationRequired then outcome == Applied(View(E.AwaitingFunding, TxPending), None)
              else outcome == Applied(View(view.escrow, TxPending), None)
            case SeenUnknown =>
              if view.escrow == E.ReconciliationRequired then outcome == Applied(View(view.escrow, TxReconciliationRequired), None)
              else if view.escrow == E.Failed then outcome == Refused
              else outcome == Applied(View(E.ReconciliationRequired, TxReconciliationRequired), Some(ReconciliationNeeded))
            case SeenRejected =>
              if view.escrow == E.Failed then outcome == Applied(View(E.Failed, TxRejected), None)
              else if view.escrow == E.Funded then outcome == Refused
              else outcome == Applied(View(E.Failed, TxRejected), Some(EscrowFailed))
  {
  }

  /** One look at a settlement transaction, case by case: only a confirmation settles the escrow. */
  lemma SettlementLook(kind: Kind, view: View, seen: Observation)
    requires kind != LockTx && !TakenBack(view, seen)
    ensures var outcome := Observe(kind, view, seen);
            var pending, terminal := if kind == ReleaseTx then E.ReleasePending else E.RefundPending,
                                     if kind == ReleaseTx then E.Released else E.Refunded;
            var waiting := if view.escrow == E.ReconciliationRequired then pending else view.escrow;
            match seen
            case SeenConfirmed =>
              if view.escrow == terminal then outcome == Applied(View(terminal, Confirmed), None)
              else if view.escrow in {pending, E.ReconciliationRequired}
              then outcome == Applied(View(terminal, Confirmed), Some(if kind == ReleaseTx then EscrowReleased else EscrowRefunded))
              else outcome == Refused
            case SeenCommitted => outcome == Applied(View(waiting, Committed), None)
            case SeenPending => outcome == Applied(View(waiting, TxPending), None)
            case SeenUnknown =>
              if view.escrow == E.ReconciliationRequired then outcome == Applied(View(view.escrow, TxReconciliationRequired), None)
              else if view.escrow == E.Failed then outcome == Refused
              else outcome == Applied(View(E.ReconciliationRequired, TxReconciliationRequired), Some(ReconciliationNeeded))
            case SeenRejected =>
              if view.escrow == E.Failed then outcome == Applied(View(E.Failed, TxRejected), None)
              else if view.escrow == E.Funded then outcome == Refused
              else outcome == Applied(View(E.Failed, TxRejected), Some(EscrowFailed))
  {
  }

  /** What creating the escrow leaves for the reconciler: a broadcast transaction, or an ambiguous one. */
  predicate LockStart(view: View) {
    view == View(E.AwaitingFunding, Broadcast) || view == View(E.ReconciliationRequired, TxReconciliationRequired)
  }

  /** After the last confirmation the transaction was never seen outside a block. */
  ghost predicate StandsConfirmed(seen: seq<Observation>) {
    exists i | 0 <= i < |seen| ::
      seen[i] == SeenConfirmed && forall j | i < j < |seen| :: seen[j] in {SeenConfirmed, SeenCommitted}
  }

  /** How often a confirmation was seen that was not standing already. */
  ghost function NewConfirmations(seen: seq<Observation>): nat {
    if seen == [] then 0
    else
      var front := seen[..|seen| - 1];
      NewConfirmations(front) + if seen[|seen| - 1] == SeenConfirmed && !StandsConfirmed(front) then 1 else 0
  }

  lemma StandingGrows(seen: seq<Observation>, last: Observation)
    ensures StandsConfirmed(seen + [last])
            <==> last == SeenConfirmed || (last == SeenCommitted && StandsConfirmed(seen))
  {
    var all := seen + [last];
    assert all[|seen|] == last;
    if last == SeenCommitted && StandsConfirmed(seen) {
      var i :| 0 <= i < |seen| && seen[i] == SeenConfirmed
               && forall j | i < j < |seen| :: seen[j] in {SeenConfirmed, SeenCommitted};
      assert all[i] == SeenConfirmed;
    }
    if i :| 0 <= i < |seen| && all[i] == SeenConfirmed
            && forall j | i < j < |all| :: all[j] in {SeenConfirmed, SeenCommitted} {
      assert seen[i] == SeenConfirmed && forall j | i < j < |seen| :: seen[j] == all[j];
    }
  }

  predicate LockView(view: View, funded: bool) {
    && view.escrow in {E.AwaitingFunding, E.FundingDetected, E.Funded, E.ReconciliationRequired, E.Failed}
    && (funded <==> view.escrow == E.Funded) && (funded <==> view.transaction == Confirmed)
  }

  lemma OneMoreLockLook(view: View, funded: bool, seen: Observation, events: seq<Event>)
    requires LockView(view, funded)
    ensures var after := After(Trace(view, events), Observe(LockTx, view, seen));
            && LockView(after.view, seen == SeenConfirmed || (seen == SeenCommitted && funded))
            && multiset(after.events)[EscrowFunded]
               == multiset(events)[EscrowFunded] + if seen == SeenConfirmed && !funded then 1 else 0
  {
  }

  /**
   Whatever the node answers, the escrow is funded exactly while a confirmation
   stands, and the funding is announced exactly once for each new one; so
   never before the first confirmation.
   */
  lemma {:induction false} FundedWhileConfirmed(start: View, seen: seq<Observation>)
    requires LockStart(start)
    ensures var trace := ObserveAll(LockTx, start, seen);
            && (trace.view.escrow == E.Funded <==> StandsConfirmed(seen))
            && multiset(trace.events)[EscrowFunded] == NewConfirmations(seen)
  {
    LockHistory(start, seen);
  }

  lemma {:induction false} LockHistory(start: View, seen: seq<Observation>)
    requires LockStart(start)
    ensures var trace := ObserveAll(LockTx, start, seen);
            LockView(trace.view, StandsConfirmed(seen)) && multiset(trace.events)[EscrowFunded] == NewConfirmations(seen)
  {
    hide Observe, After;
    if seen != [] {
      var front, last := seen[..|seen| - 1], seen[|seen| - 1];
      assert seen == front + [last];
      LockHistory(start, front);
      StandingGrows(front, last);
      var before := ObserveAll(LockTx, start, front);
      OneMoreLockLook(before.view, StandsConfirmed(front), last, before.events);
      hide LockView, StandsConfirmed;
      assert before == Trace(before.view, before.events);
    }
  }

  // ---------------------------------------------------------------- a lone settlement transaction

  /** What a settlement leaves for the reconciler: its pending status, or an ambiguous broadcast. */
  predicate SettlementStart(kind: Kind, view: View) {
    && kind != LockTx
    && (view == View(if kind == ReleaseTx then E.ReleasePending else E.RefundPending, Broadcast)
        || view == View(E.ReconciliationRequired, TxReconciliationRequired))
  }

  function TerminalEvent(kind: Kind): Event {
    if kind == ReleaseTx then EscrowReleased else EscrowRefunded
  }

  /** The events that count for alternation. */
  function Swings(kind: Kind, events: seq<Event>): seq<Event> {
    if events == [] then []
    else
      var front, last := Swings(kind, events[..|events| - 1]), events[|events| - 1];
      if last == TerminalEvent(kind) || last == ReorgDetected then front + [last] else front
  }

  predicate Alternates(kind: Kind, swings: seq<Event>) {
    forall i | 0 <= i < |swings| :: swings[i] == (if i % 2 == 0 then TerminalEvent(kind) else ReorgDetected)
  }

  /**
   The transaction was rejected by the node while no confirmation had been seen
   that the rejection could have taken back.
   */
  predicate PlainlyRejected(kind: Kind, start: View, seen: seq<Observation>) {
    exists i | 0 <= i < |seen| ::
      seen[i] == SeenRejected && !IsReorg(ObserveAll(kind, start, seen[..i]).view, SeenRejected)
  }

  function TerminalOf(kind: Kind): E.Status {
    if kind == ReleaseTx then E.Released else E.Refunded
  }

  /** Where a lone settlement can be; `reached` says that the last swing was to the terminal status. */
  predicate SettlementView(kind: Kind, view: View, reached: bool, rejected: bool) {
    var terminal := TerminalOf(kind);
    var pending := if kind == ReleaseTx then E.ReleasePending else E.RefundPending;
    && (rejected <==> view.escrow == E.Failed)
    && (reached <==> view.escrow == terminal)
    && view.escrow in {terminal, pending, E.ReconciliationRequired, E.Failed}
    && (view.transaction == Confirmed ==> view.escrow == terminal)
    && (view.transaction == Reorged ==> view.escrow == E.ReconciliationRequired)
  }

  predicate Swing(kind: Kind, event: Event) {
    event == TerminalEvent(kind) || event == ReorgDetected
  }

  lemma OneMoreLook(kind: Kind, view: View, reached: bool, rejected: bool, seen: Observation)
    requires kind != LockTx && SettlementView(kind, view, reached, rejected)
    ensures var outcome := Observe(kind, view, seen);
            outcome.Applied? && outcome.event.Some? && Swing(kind, outcome.event.value) ==>
              outcome.event.value == if reached then ReorgDetected else TerminalEvent(kind)
    ensures var outcome := Observe(kind, view, seen);
            var swung := outcome.Applied? && outcome.event.Some? && Swing(kind, outcome.event.value);
            var plain := seen == SeenRejected && !IsReorg(view, SeenRejected);
            SettlementView(kind, After(Trace(view, []), outcome).view, reached != swung, rejected || plain)
  {
  }

  lemma SwingsAppend(kind: Kind, events: seq<Event>, event: Event)
    ensures Swings(kind, events + [event]) ==
            if Swing(kind, event) then Swings(kind, events) + [event] else Swings(kind, events)
  {
    assert (events + [event])[..|events|] == events;
  }

  lemma PlainRejectionAppend(kind: Kind, start: View, seen: seq<Observation>, last: Observation)
    ensures PlainlyRejected(kind, start, seen + [last]) <==>
            PlainlyRejected(kind, start, seen)
            || (last == SeenRejected && !IsReorg(ObserveAll(kind, start, seen).view, SeenRejected))
  {
    var all := seen + [last];
    forall i | 0 <= i <= |seen| ensures all[..i] == seen[..i] {
    }
    assert seen[..|seen|] == seen;
    if last == SeenRejected && !IsReorg(ObserveAll(kind, start, seen).view, SeenRejected) {
      assert all[|seen|] == SeenRejected && !IsReorg(ObserveAll(kind, start, all[..|seen|]).view, SeenRejected);
    }
    if i :| 0 <= i < |seen| && seen[i] == SeenRejected
            && !IsReorg(ObserveAll(kind, start, seen[..i]).view, SeenRejected) {
      assert all[i] == SeenRejected && !IsReorg(ObserveAll(kind, start, all[..i]).view, SeenRejected);
    }
  }

  lemma {:induction false} SettlementHistory(kind: Kind, start: View, seen: seq<Observation>)
    requires SettlementStart(kind, start)
    ensures var trace := ObserveAll(kind, start, seen);
            var swings := Swings(kind, trace.events);
            && Alternates(kind, swings)
            && SettlementView(kind, trace.view, |swings| % 2 == 1, PlainlyRejected(kind, start, seen))
  {
    if seen != [] {
      var front, last := seen[..|seen| - 1], seen[|seen| - 1];
      assert seen == front + [last];
      SettlementHistory(kind, start, front);
      PlainRejectionAppend(kind, start, front, last);
      var before := ObserveAll(kind, start, front);
      var reached := |Swings(kind, before.events)| % 2 == 1;
      OneMoreLook(kind, before.view, reached, PlainlyRejected(kind, start, front), last);
      SwingsGrow(kind, before, Observe(kind, before.view, last), reached);
    }
  }

  lemma SwingsGrow(kind: Kind, before: Trace, outcome: Outcome, reached: bool)
    requires reached <==> |Swings(kind, before.events)| % 2 == 1
    requires Alternates(kind, Swings(kind, before.events))
    requires outcome.Applied? && outcome.event.Some? && Swing(kind, outcome.event.value) ==>
               outcome.event.value == if reached then ReorgDetected else TerminalEvent(kind)
    ensures var swings := Swings(kind, After(before, outcome).events);
            var swung := outcome.Applied? && outcome.event.Some? && Swing(kind, outcome.event.value);
            Alternates(kind, swings) && (|swings| % 2 == 1 <==> reached != swung)
  {
    if outcome.Applied? && outcome.event.Some? {
      SwingsAppend(kind, before.events, outcome.event.value);
    }
  }

  /** A confirmation reaches the terminal status from everywhere but a rejection. */
  lemma ConfirmationSettles(kind: Kind, view: View, reached: bool, rejected: bool)
    requires kind != LockTx && SettlementView(kind, view, reached, rejected)
    ensures forall events :: After(Trace(view, events), Observe(kind, view, SeenConfirmed)).view.escrow == TerminalOf(kind)
                             <==> !rejected
  {
  }

  /**
   For a lone settlement, terminal and reorg events strictly alternate, terminal
   first, and one more confirmation brings the escrow to its terminal status
   exactly when the node had not plainly rejected the transaction before.
   */
  lemma SettlementEventsAlternate(kind: Kind, start: View, seen: seq<Observation>)
    requires SettlementStart(kind, start)
    ensures Alternates(kind, Swings(kind, ObserveAll(kind, start, seen).events))
    ensures ObserveAll(kind, start, seen + [SeenConfirmed]).view.escrow == TerminalOf(kind)
            <==> !PlainlyRejected(kind, start, seen)
  {
    SettlementHistory(kind, start, seen);
    ObserveLast(kind, start, seen, SeenConfirmed);
    ConfirmationSettles(kind, ObserveAll(kind, start, seen).view,
                        |Swings(kind, ObserveAll(kind, start, seen).events)| % 2 == 1,
                        PlainlyRejected(kind, start, seen));
    hide *;
  }
}
