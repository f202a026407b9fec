/**
 Webhook deliveries: what one attempt writes, and what any number of duplicate
 or crashed executors and manual retries leave behind.
 */
module Webhooks {
  import opened Results

  type Id = nat

  /** `DeliveryFailed` is the event that tells about a delivery that failed for good. */
  datatype EventType = DeliveryFailed | Other(name: string)

  datatype Status = Pending | Delivered | Failed | Retry

  datatype Endpoint = Endpoint(active: bool, deleted: bool, subscribed: set<EventType>)

  datatype Delivery = Delivery(endpoint: Id, event: EventType, status: Status, attempts: nat)

  /** The last part of a job's dedupe key. */
  datatype Key = First | After(attempts: nat) | Manual(time: nat)

  datatype Job = Job(delivery: Id, key: Key)

  /** The result recorded for one attempt of one delivery. */
  datatype Record = Record(delivery: Id, number: nat, status: Status)

  /** The attempt of a delivery that a failure event is about. */
  datatype Notice = Notice(delivery: Id, number: nat)

  /** Rows, and what was ever inserted; `next` is above every delivery id in use. */
  datatype State = State(endpoints: map<Id, Endpoint>, deliveries: map<Id, Delivery>, next: Id,
                         jobs: multiset<Job>, records: multiset<Record>, notices: multiset<Notice>)

  const START: State := State(map[], map[], 0, multiset{}, multiset{}, multiset{})

  // ---------------------------------------------------------------- retry schedule

  const RETRY_DELAYS: seq<nat> := [60_000, 300_000, 900_000, 3_600_000, 21_600_000]

  function RetryDelay(failedAttempts: int): Option<nat> {
    if failedAttempts < 1 then Some(RETRY_DELAYS[0])
    else if failedAttempts <= |RETRY_DELAYS| then Some(RETRY_DELAYS[failedAttempts - 1])
    else None
  }

  /** Five retries, after one, five and fifteen minutes, one hour and six, and then none. */
  lemma ScheduleIsBounded(failedAttempts: int)
    ensures RetryDelay(failedAttempts) == None <==> failedAttempts > 5
    ensures failedAttempts <= 5 ==>
              RetryDelay(failedAttempts).value == 60_000 * match failedAttempts
                                                           case 2 => 5
                                                           case 3 => 15
                                                           case 4 => 60
                                                           case 5 => 360
                                                           case _ => 1
  {
  }

  // ---------------------------------------------------------------- events

  function Subscribed(endpoints: map<Id, Endpoint>, event: EventType): set<Id> {
    set e | e in endpoints && endpoints[e].active && !endpoints[e].deleted && event in endpoints[e].subscribed
  }

  /** The query result: every subscribed endpoint once, in some order. */
  ghost predicate Lists(targets: seq<Id>, ids: set<Id>) {
    && (forall e :: e in targets <==> e in ids)
    && (forall i, j | 0 <= i < j < |targets| :: targets[i] != targets[j])
  }

  /** One pending delivery and its first job for each endpoint in turn. */
  function Fanout(s: State, event: EventType, targets: seq<Id>): State {
    if targets == [] then s
    else
      var before := Fanout(s, event, targets[..|targets| - 1]);
      before.(deliveries := before.deliveries[before.next := Delivery(targets[|targets| - 1], event, Pending, 0)],
              jobs := before.jobs + multiset{Job(before.next, First)}, next := before.next + 1)
  }

  // ---------------------------------------------------------------- one attempt

  /** What an executor read when it took the delivery up. */
  datatype Snapshot = Snapshot(delivery: Id, event: EventType, status: Status, attempts: nat)

  function Look(s: State, d: Id): Snapshot
    requires d in s.deliveries
  {
    Snapshot(d, s.deliveries[d].event, s.deliveries[d].status, s.deliveries[d].attempts)
  }

  /** How the attempt went: a good response, a bad or missing one, or an endpoint that cannot be called at all. */
  datatype Outcome = Succeeds | Fails | Unusable

  function ResultOf(snapshot: Snapshot, outcome: Outcome): Status {
    match outcome
    case Succeeds => Delivered
    case Unusable => Failed
    case Fails => if RetryDelay(snapshot.attempts + 1).Some? then Retry else Failed
  }

  predicate Current(s: State, snapshot: Snapshot) {
    && snapshot.delivery in s.deliveries
    && s.deliveries[snapshot.delivery].status == snapshot.status
    && s.deliveries[snapshot.delivery].attempts == snapshot.attempts
  }

  /** The transaction that records a result: nothing at all, unless the delivery is still as it was read. */
  function RecordResult(s: State, snapshot: Snapshot, outcome: Outcome, targets: seq<Id>): State {
    if !Current(s, snapshot) then s
    else
      var d, number, status := snapshot.delivery, snapshot.attempts + 1, ResultOf(snapshot, outcome);
      var written := s.(deliveries := s.deliveries[d := s.deliveries[d].(status := status, attempts := number)],
                        records := s.records + multiset{Record(d, number, status)});
      if status == Retry then written.(jobs := written.jobs + multiset{Job(d, After(number))})
      else if status == Failed && snapshot.event != DeliveryFailed then
        Fanout(written.(notices := written.notices + multiset{Notice(d, number)}), DeliveryFailed, targets)
      else written
  }

  function RetryManually(s: State, d: Id, time: nat): State {
    if d in s.deliveries && s.deliveries[d].status in {Failed, Retry}
    then s.(deliveries := s.deliveries[d := s.deliveries[d].(status := Pending)],
            jobs := s.jobs + multiset{Job(d, Manual(time))})
    else s
  }

  /**
   What one attempt leaves: a good answer delivers, an endpoint that cannot be
   called fails for good, and a bad answer is retried up to the fifth attempt
   and fails for good at the sixth.  A retry gets its job, and a last failure
   is announced unless it is one about a failure itself.
   */
  lemma OneAttempt(s: State, d: Id, outcome: Outcome, targets: seq<Id>)
    requires d in s.deliveries
    ensures var before, after := s.deliveries[d], RecordResult(s, Look(s, d), outcome, targets);
            var number := before.attempts + 1;
            var status := if outcome == Succeeds then Delivered else if outcome == Fails && number <= 5 then Retry else Failed;
            var row := before.(status := status, attempts := number);
            var written := s.(deliveries := s.deliveries[d := row], records := s.records + multiset{Record(d, number, status)});
            if status == Retry then after == written.(jobs := written.jobs + multiset{Job(d, After(number))})
            else if status == Failed && before.event != DeliveryFailed then
              after == Fanout(written.(notices := written.notices + multiset{Notice(d, number)}), DeliveryFailed, targets)
            else after == written
  {
    ScheduleIsBounded(s.deliveries[d].attempts + 1);
    hide Fanout, RetryDelay;
  }

  /** A retry by hand makes a failed or waiting delivery pending again, with one job that will take it up. */
  lemma RetriedByHand(s: State, d: Id, time: nat)
    ensures RetryManually(s, d, time)
            == if d in s.deliveries && (s.deliveries[d].status == Failed || s.deliveries[d].status == Retry)
               then State(s.endpoints, s.deliveries[d := s.deliveries[d].(status := Pending)], s.next,
                          s.jobs + multiset{Job(d, Manual(time))}, s.records, s.notices)
               else s
  {
  }

  // ---------------------------------------------------------------- any number of executors

  datatype World = World(s: State, executors: map<Id, Snapshot>)

  datatype Step =
    | SetEndpoint(e: Id, endpoint: Endpoint)
    | Happens(name: string, targets: seq<Id>)
    | TakeUp(x: Id, d: Id)
    | RecordOutcome(x: Id, outcome: Outcome, targets: seq<Id>)
    | Crash(x: Id)
    | Retrying(d: Id, time: nat)

  ghost function Next(w: World, step: Step): World {
    match step
    case SetEndpoint(e, endpoint) => w.(s := w.s.(endpoints := w.s.endpoints[e := endpoint]))
    case Happens(name, targets) =>
      if Lists(targets, Subscribed(w.s.endpoints, Other(name))) then w.(s := Fanout(w.s, Other(name), targets)) else w
    case TakeUp(x, d) =>
      if d in w.s.deliveries && w.s.deliveries[d].status != Delivered
      then w.(executors := w.executors[x := Look(w.s, d)]) else w
    case RecordOutcome(x, outcome, targets) =>
      if x in w.executors && Lists(targets, Subscribed(w.s.endpoints, DeliveryFailed))
      then World(RecordResult(w.s, w.executors[x], outcome, targets), w.executors - {x}) else w
    case Crash(x) => w.(executors := w.executors - {x})
    case Retrying(d, time) => w.(s := RetryManually(w.s, d, time))
  }

  ghost function Run(w: World, steps: seq<Step>): World {
    if steps == [] then w else Next(Run(w, steps[..|steps| - 1]), steps[|steps| - 1])
  }

  /** An executor alone: it takes the delivery up and records how its attempt went, or crashes and leaves no trace. */
  lemma ExecutorRunsThrough(w: World, x: Id, d: Id, outcome: Outcome, targets: seq<Id>)
    requires x !in w.executors && d in w.s.deliveries && w.s.deliveries[d].status != Delivered
    requires Lists(targets, Subscribed(w.s.endpoints, DeliveryFailed))
    ensures var taken := Next(w, TakeUp(x, d));
            && Next(taken, RecordOutcome(x, outcome, targets)) == w.(s := RecordResult(w.s, Look(w.s, d), outcome, targets))
            && Next(taken, Crash(x)) == w
  {
    assert w.executors[x := Look(w.s, d)] - {x} == w.executors;
    hide RecordResult, Lists;
  }

  /** A failed delivery that is retried by hand and then answered well is delivered. */
  lemma RetriedDeliveryArrives(w: World, x: Id, d: Id, time: nat, targets: seq<Id>)
    requires x !in w.executors && d in w.s.deliveries && w.s.deliveries[d].status == Failed
    requires Lists(targets, Subscribed(w.s.endpoints, DeliveryFailed))
    ensures var retried := Next(w, Retrying(d, time));
            var after := Next(Next(retried, TakeUp(x, d)), RecordOutcome(x, Succeeds, targets)).s;
            && retried.s.jobs == w.s.jobs + multiset{Job(d, Manual(time))}
            && d in after.deliveries
            && after.deliveries[d] == w.s.deliveries[d].(status := Delivered, attempts := w.s.deliveries[d].attempts + 1)
  {
    RetriedByHand(w.s, d, time);
    var retried := Next(w, Retrying(d, time));
    ExecutorRunsThrough(retried, x, d, Succeeds, targets);
    OneAttempt(retried.s, d, Succeeds, targets);
    hide RecordResult, Lists;
  }

  // ---------------------------------------------------------------- one record for each attempt

  function Attempts(s: State, d: Id): nat {
    if d in s.deliveries then s.deliveries[d].attempts else 0
  }

  predicate TellsOfFailure(s: State, d: Id) {
    d in s.deliveries && s.deliveries[d].event != DeliveryFailed
  }

  /** What is known of attempt `n` of delivery `d`. */
  ghost predicate Tally(s: State, d: Id, n: nat) {
    var retried, failed, delivered :=
      s.records[Record(d, n, Retry)], s.records[Record(d, n, Failed)], s.records[Record(d, n, Delivered)];
    && retried + failed + delivered == (if 1 <= n <= Attempts(s, d) then 1 else 0)
    && s.jobs[Job(d, After(n))] == retried
    && s.notices[Notice(d, n)] == (if TellsOfFailure(s, d) then failed else 0)
    && (delivered > 0 ==> n == Attempts(s, d) && s.deliveries[d].status == Delivered)
  }

  ghost predicate Tallied(s: State) {
    (forall d | d in s.deliveries :: d < s.next) && forall d, n :: Tally(s, d, n)
  }

  /** Executors hold what was once read, of deliveries that were not delivered then. */
  ghost predicate WellRead(w: World) {
    forall x | x in w.executors ::
      && w.executors[x].status != Delivered
      && w.executors[x].delivery in w.s.deliveries
      && w.executors[x].event == w.s.deliveries[w.executors[x].delivery].event
  }

  /** Deliveries that are already there are not touched by an event. */
  lemma {:induction false} FanoutAdds(s: State, event: EventType, targets: seq<Id>)
    requires forall d | d in s.deliveries :: d < s.next
    ensures var after := Fanout(s, event, targets);
            && after.next == s.next + |targets| && after.endpoints == s.endpoints
            && after.records == s.records && after.notices == s.notices
            && (forall d | d in s.deliveries :: d in after.deliveries && after.deliveries[d] == s.deliveries[d])
            && (forall d | d in after.deliveries && d !in s.deliveries ::
                  s.next <= d < after.next && after.deliveries[d].attempts == 0)
            && (forall d, n :: after.jobs[Job(d, After(n))] == s.jobs[Job(d, After(n))])
  {
    if targets != [] {
      FanoutAdds(s, event, targets[..|targets| - 1]);
    }
  }

  /** The targets of an event get one new delivery each, in their order. */
  lemma {:induction false} FanoutInOrder(s: State, event: EventType, targets: seq<Id>)
    requires forall d | d in s.deliveries :: d < s.next
    ensures var after := Fanout(s, event, targets);
            && (forall d :: d in after.deliveries <==> d in s.deliveries || s.next <= d < s.next + |targets|)
            && (forall d | s.next <= d < s.next + |targets| ::
                  after.deliveries[d] == Delivery(targets[d - s.next], event, Pending, 0))
  {
    if targets != [] {
      var front := targets[..|targets| - 1];
      FanoutInOrder(s, event, front);
      FanoutNumbers(s, event, front);
    }
  }

  /** The deliveries an event made for the endpoint. */
  function DeliveriesTo(s: State, after: State, e: Id): set<Id> {
    set d | d in after.deliveries && d !in s.deliveries && after.deliveries[d].endpoint == e
  }

  /** An event reaches every subscribed endpoint with exactly one new pending delivery of it, and no other endpoint. */
  lemma FanoutReachesEach(s: State, event: EventType, targets: seq<Id>, e: Id)
    requires (forall d | d in s.deliveries :: d < s.next) && Lists(targets, Subscribed(s.endpoints, event))
    ensures var after := Fanout(s, event, targets);
            if e in s.endpoints && s.endpoints[e].active && !s.endpoints[e].deleted && event in s.endpoints[e].subscribed then
              exists d | d in after.deliveries ::
                DeliveriesTo(s, after, e) == {d} && after.deliveries[d] == Delivery(e, event, Pending, 0)
            else DeliveriesTo(s, after, e) == {}
  {
    FanoutInOrder(s, event, targets);
    var after := Fanout(s, event, targets);
    assert e in targets <==> e in Subscribed(s.endpoints, event);
    hide Fanout;
    if i :| 0 <= i < |targets| && targets[i] == e {
      assert after.deliveries[s.next + i].endpoint == e;
      forall d | d in DeliveriesTo(s, after, e) ensures d == s.next + i {
        assert targets[d - s.next] == e;
      }
      assert DeliveriesTo(s, after, e) == {s.next + i};
    }
  }

  lemma {:induction false} FanoutNumbers(s: State, event: EventType, targets: seq<Id>)
    ensures Fanout(s, event, targets).next == s.next + |targets|
  {
    if targets != [] {
      FanoutNumbers(s, event, targets[..|targets| - 1]);
    }
  }

  /** And queues exactly one first job for each new delivery, and no other job. */
  lemma {:induction false} FanoutQueuesEach(s: State, event: EventType, targets: seq<Id>, job: Job)
    ensures Fanout(s, event, targets).jobs[job]
            == s.jobs[job] + if job.key == First && s.next <= job.delivery < s.next + |targets| then 1 else 0
  {
    if targets != [] {
      FanoutQueuesEach(s, event, targets[..|targets| - 1], job);
      FanoutNumbers(s, event, targets[..|targets| - 1]);
    }
  }

  lemma FanoutKeepsTally(s: State, event: EventType, targets: seq<Id>)
    requires Tallied(s)
    ensures Tallied(Fanout(s, event, targets))
  {
    FanoutAdds(s, event, targets);
    var after := Fanout(s, event, targets);
    hide Fanout;
    forall d, n ensures Tally(after, d, n) {
      assert Tally(s, d, n);
    }
  }

  /** The rows of a recorded result, before any event is sent. */
  function Written(s: State, snapshot: Snapshot, status: Status): State
    requires Current(s, snapshot)
  {
    var d, number := snapshot.delivery, snapshot.attempts + 1;
    s.(deliveries := s.deliveries[d := s.deliveries[d].(status := status, attempts := number)],
       records := s.records + multiset{Record(d, number, status)},
       jobs := if status == Retry then s.jobs + multiset{Job(d, After(number))} else s.jobs,
       notices := if status == Failed && snapshot.event != DeliveryFailed then s.notices + multiset{Notice(d, number)}
                  else s.notices)
  }

  lemma WritingKeepsTally(s: State, snapshot: Snapshot, status: Status)
    requires Tallied(s) && Current(s, snapshot) && snapshot.status != Delivered && status != Pending
    requires snapshot.event == s.deliveries[snapshot.delivery].event
    ensures Tallied(Written(s, snapshot, status))
  {
    var after := Written(s, snapshot, status);
    forall d, n ensures Tally(after, d, n) {
      assert Tally(s, d, n);
    }
  }

  lemma RecordIsWritten(s: State, snapshot: Snapshot, outcome: Outcome, targets: seq<Id>)
    requires Current(s, snapshot)
    ensures var status := ResultOf(snapshot, outcome);
            RecordResult(s, snapshot, outcome, targets)
            == (if status == Failed && snapshot.event != DeliveryFailed
                then Fanout(Written(s, snapshot, status), DeliveryFailed, targets)
                else Written(s, snapshot, status))
  {
  }

  lemma RecordKeepsTally(s: State, snapshot: Snapshot, outcome: Outcome, targets: seq<Id>)
    requires Tallied(s) && snapshot.status != Delivered
    requires snapshot.delivery in s.deliveries && snapshot.event == s.deliveries[snapshot.delivery].event
    ensures Tallied(RecordResult(s, snapshot, outcome, targets))
  {
    if Current(s, snapshot) {
      var status := ResultOf(snapshot, outcome);
      RecordIsWritten(s, snapshot, outcome, targets);
      WritingKeepsTally(s, snapshot, status);
      hide Tallied, RecordResult;
      FanoutKeepsTally(Written(s, snapshot, status), DeliveryFailed, targets);
    }
  }

  lemma RetryKeepsTally(s: State, d: Id, time: nat)
    requires Tallied(s)
    ensures Tallied(RetryManually(s, d, time))
  {
    var after := RetryManually(s, d, time);
    forall e, n ensures Tally(after, e, n) {
      assert Tally(s, e, n);
    }
  }

  lemma EndpointsKeepTally(s: State, endpoints: map<Id, Endpoint>)
    requires Tallied(s)
    ensures Tallied(s.(endpoints := endpoints))
  {
    forall d, n ensures Tally(s.(endpoints := endpoints), d, n) {
      assert Tally(s, d, n);
    }
  }

  /** Deliveries stay, with their event, and a delivered one stays as it is. */
  ghost predicate DeliveriesStay(s: State, after: State) {
    forall d | d in s.deliveries ::
      && d in after.deliveries && after.deliveries[d].event == s.deliveries[d].event
      && (s.deliveries[d].status == Delivered ==> after.deliveries[d] == s.deliveries[d])
  }

  lemma RecordKeepsDeliveries(s: State, snapshot: Snapshot, outcome: Outcome, targets: seq<Id>)
    requires Tallied(s) && snapshot.status != Delivered
    ensures DeliveriesStay(s, RecordResult(s, snapshot, outcome, targets))
  {
    if Current(s, snapshot) {
      var written := Written(s, snapshot, ResultOf(snapshot, outcome));
      RecordIsWritten(s, snapshot, outcome, targets);
      FanoutAdds(written, DeliveryFailed, targets);
      hide RecordResult, Fanout, Tally;
    }
  }

  lemma NextKeepsDeliveries(w: World, step: Step)
    requires Tallied(w.s) && WellRead(w)
    ensures DeliveriesStay(w.s, Next(w, step).s)
  {
    hide RecordResult, Fanout, Tally;
    match step {
      case RecordOutcome(x, outcome, targets) =>
        if x in w.executors { RecordKeepsDeliveries(w.s, w.executors[x], outcome, targets); }
      case Happens(name, targets) => FanoutAdds(w.s, Other(name), targets);
      case _ =>
    }
  }

  lemma NextKeepsTally(w: World, step: Step)
    requires Tallied(w.s) && WellRead(w)
    ensures Tallied(Next(w, step).s)
  {
    hide Tallied, RecordResult, Fanout, RetryManually;
    match step {
      case SetEndpoint(e, endpoint) => EndpointsKeepTally(w.s, w.s.endpoints[e := endpoint]);
      case Happens(name, targets) => FanoutKeepsTally(w.s, Other(name), targets);
      case RecordOutcome(x, outcome, targets) =>
        if x in w.executors { RecordKeepsTally(w.s, w.executors[x], outcome, targets); }
      case Retrying(d, time) => RetryKeepsTally(w.s, d, time);
      case TakeUp(x, d) =>
      case Crash(x) =>
    }
  }

  lemma NextStaysWellRead(w: World, step: Step)
    requires Tallied(w.s) && WellRead(w)
    ensures WellRead(Next(w, step))
  {
    NextKeepsDeliveries(w, step);
    hide RecordResult, Fanout, RetryManually, Tallied;
  }

  lemma {:induction false} RunKeepsTally(w: World, steps: seq<Step>)
    requires Tallied(w.s) && WellRead(w)
    ensures Tallied(Run(w, steps).s) && WellRead(Run(w, steps))
  {
    hide Next, Tallied, WellRead;
    if steps != [] {
      var before := Run(w, steps[..|steps| - 1]);
      RunKeepsTally(w, steps[..|steps| - 1]);
      NextKeepsTally(before, steps[|steps| - 1]);
      NextStaysWellRead(before, steps[|steps| - 1]);
    }
  }

  lemma NothingDeliveredYet()
    ensures Tallied(START) && WellRead(World(START, map[]))
  {
  }

  /**
   However often executors are doubled, crash or come late, and deliveries are
   retried by hand: each attempt number has one recorded result up to the
   number of attempts and none beyond, with a retry job exactly if the result
   was a retry, and a failure event exactly if it was the last failure of a
   delivery that is not itself about a failure.
   */
  lemma {:induction false} OneResultPerAttempt(steps: seq<Step>, d: Id, n: nat)
    ensures var s := Run(World(START, map[]), steps).s;
            var retried, failed, delivered :=
              s.records[Record(d, n, Retry)], s.records[Record(d, n, Failed)], s.records[Record(d, n, Delivered)];
            && retried + failed + delivered == (if 1 <= n <= Attempts(s, d) then 1 else 0)
            && s.jobs[Job(d, After(n))] == retried
            && s.notices[Notice(d, n)] == (if TellsOfFailure(s, d) then failed else 0)
            && (delivered > 0 ==> n == Attempts(s, d) && s.deliveries[d].status == Delivered)
  {
    NothingDeliveredYet();
    RunKeepsTally(World(START, map[]), steps);
    hide Run;
    assert Tally(Run(World(START, map[]), steps).s, d, n);
  }

  /** What was delivered stays delivered, with the attempts it took. */
  lemma {:induction false} DeliveredStays(w: World, steps: seq<Step>, d: Id)
    requires Tallied(w.s) && WellRead(w) && d in w.s.deliveries && w.s.deliveries[d].status == Delivered
    ensures d in Run(w, steps).s.deliveries && Run(w, steps).s.deliveries[d] == w.s.deliveries[d]
  {
    hide Next, Tallied, WellRead;
    if steps != [] {
      var before := Run(w, steps[..|steps| - 1]);
      DeliveredStays(w, steps[..|steps| - 1], d);
      RunKeepsTally(w, steps[..|steps| - 1]);
      NextKeepsDeliveries(before, steps[|steps| - 1]);
    }
  }
}
