/**
 While no lease is lost and nobody retries by hand, every job is executed once
 and delivery comes to an end, whatever the endpoints answer.
 */
module WebhookDrain {
  import opened Results
  import opened Sums
  import opened Webhooks

  type Deliveries = map<Id, Delivery>
  type Open = map<Job, Option<Snapshot>>

  /** The jobs not finished yet, and what the executor of each has read; `dropped` are the deliveries whose job threw. */
  datatype Queue = Queue(s: State, open: Open, dropped: set<Id>)

  datatype Execution =
    | Start(job: Job)
    | Finish(job: Job, outcome: Outcome, targets: seq<Id>)
    | Throw(job: Job)

  function FirstJobs(from: Id, count: nat): Open {
    if count == 0 then map[] else FirstJobs(from, count - 1)[Job(from + count - 1, First) := None]
  }

  /** The jobs that recording a result opens. */
  function OpenedBy(snapshot: Snapshot, status: Status, next: Id, count: nat): Open {
    if status == Retry then map[Job(snapshot.delivery, After(snapshot.attempts + 1)) := None]
    else if status == Failed && snapshot.event != DeliveryFailed then FirstJobs(next, count)
    else map[]
  }

  predicate Enabled(q: Queue, x: Execution) {
    x.job in q.open && x.job.delivery in q.s.deliveries && (x.Start? <==> q.open[x.job].None?)
  }

  function Execute(q: Queue, x: Execution): Queue
    requires Enabled(q, x)
  {
    match x
    case Start(job) =>
      if q.s.deliveries[job.delivery].status == Delivered then q.(open := q.open - {job})
      else q.(open := q.open[job := Some(Look(q.s, job.delivery))])
    case Finish(job, outcome, targets) =>
      var snapshot := q.open[job].value;
      Queue(RecordResult(q.s, snapshot, outcome, targets),
            (q.open - {job}) + (if Current(q.s, snapshot) then OpenedBy(snapshot, ResultOf(snapshot, outcome), q.s.next, |targets|) else map[]),
            q.dropped)
    case Throw(job) => q.(open := q.open - {job}, dropped := q.dropped + {job.delivery})
  }

  function WithEndpoints(q: Queue, endpoints: map<Id, Endpoint>): Queue {
    Queue(State(endpoints, q.s.deliveries, q.s.next, q.s.jobs, q.s.records, q.s.notices), q.open, q.dropped)
  }

  /** One execution moves on, after the endpoints may have changed in any way. */
  ghost predicate Advances(q: Queue, after: Queue) {
    exists endpoints, x | Enabled(WithEndpoints(q, endpoints), x) ::
      after == Execute(WithEndpoints(q, endpoints), x)
  }

  // ---------------------------------------------------------------- what holds while nothing is lost

  predicate Waiting(delivery: Delivery) {
    delivery.status == Pending || delivery.status == Retry
  }

  ghost predicate JobFits(q: Queue, job: Job) {
    && job in q.open && job.delivery in q.s.deliveries && job.delivery < q.s.next
    && Waiting(q.s.deliveries[job.delivery]) && q.s.deliveries[job.delivery].attempts <= 5
    && (q.open[job].Some? ==> q.open[job].value == Look(q.s, job.delivery))
  }

  /** One open job for each delivery that is neither settled nor dropped, and never a seventh attempt. */
  ghost predicate Fits(q: Queue) {
    && (forall job | job in q.open :: JobFits(q, job))
    && (forall x, y | x in q.open && y in q.open && x.delivery == y.delivery :: x == y)
    && (forall d | d in q.s.deliveries :: d < q.s.next && q.s.deliveries[d].attempts <= 6)
    && (forall d | d in q.s.deliveries && d !in q.dropped && Waiting(q.s.deliveries[d]) ::
          exists job | job in q.open :: job.delivery == d)
  }

  /** Two for each attempt that is left, one less when the current one was started. */
  function Weight(attempts: nat, started: bool): nat {
    if attempts >= 6 then 0 else 2 * (6 - attempts) - (if started then 1 else 0)
  }

  predicate OfNotice(deliveries: Deliveries, job: Job) {
    job.delivery in deliveries && deliveries[job.delivery].event == DeliveryFailed
  }

  function AttemptsOf(deliveries: Deliveries, job: Job): nat {
    if job.delivery in deliveries then deliveries[job.delivery].attempts else 0
  }

  function Weights(deliveries: Deliveries, open: Open, notices: bool): map<Job, nat> {
    map job | job in open && OfNotice(deliveries, job) == notices ::
      Weight(AttemptsOf(deliveries, job), open[job].Some?)
  }

  /** The work that open jobs may still make: for deliveries of events, and for deliveries about failures. */
  ghost function Work(q: Queue, notices: bool): nat {
    Total(Weights(q.s.deliveries, q.open, notices))
  }

  // ---------------------------------------------------------------- every execution keeps it

  lemma {:induction false} FirstJobsOf(from: Id, count: nat)
    ensures forall job :: job in FirstJobs(from, count) <==> job.key == First && from <= job.delivery < from + count
    ensures forall job | job in FirstJobs(from, count) :: FirstJobs(from, count)[job] == None
  {
    if count > 0 {
      FirstJobsOf(from, count - 1);
    }
  }

  /** What a recorded result does to the deliveries; an event about it adds new ones. */
  ghost predicate Recorded(s: State, after: State, d: Id, status: Status, attempts: nat)
    requires d in s.deliveries
  {
    && s.next <= after.next && d in after.deliveries
    && after.deliveries[d] == s.deliveries[d].(status := status, attempts := attempts)
    && (forall e | e in s.deliveries && e != d :: e in after.deliveries && after.deliveries[e] == s.deliveries[e])
    && (forall e | e in after.deliveries && e !in s.deliveries ::
          s.next <= e < after.next && after.deliveries[e].status == Pending && after.deliveries[e].attempts == 0
          && after.deliveries[e].event == DeliveryFailed)
  }

  /** The jobs that come in: a retry of the same delivery, or the first jobs of the new ones. */
  ghost predicate Admitted(s: State, after: State, d: Id, status: Status, added: Open) {
    && (forall x | x in added ::
          && added[x] == None
          && (if status == Retry then x.delivery == d else x.delivery in after.deliveries && x.delivery !in s.deliveries))
    && (forall x, y | x in added && y in added && x.delivery == y.delivery :: x == y)
    && (forall e | e in after.deliveries && e !in s.deliveries :: Job(e, First) in added)
  }

  /** What finishing a job does to the deliveries and the open jobs. */
  ghost predicate Finished(q: Queue, after: Queue, job: Job, status: Status, count: nat)
    requires job in q.open && q.open[job].Some? && job.delivery in q.s.deliveries
  {
    var added := OpenedBy(q.open[job].value, status, q.s.next, count);
    && after.dropped == q.dropped && after.open == (q.open - {job}) + added
    && Recorded(q.s, after.s, job.delivery, status, q.open[job].value.attempts + 1)
    && Admitted(q.s, after.s, job.delivery, status, added)
  }

  lemma ResultIsRecorded(s: State, snapshot: Snapshot, outcome: Outcome, targets: seq<Id>)
    requires Current(s, snapshot) && forall d | d in s.deliveries :: d < s.next
    ensures var after, status := RecordResult(s, snapshot, outcome, targets), ResultOf(snapshot, outcome);
            && Recorded(s, after, snapshot.delivery, status, snapshot.attempts + 1)
            && forall e :: e in after.deliveries
                           <==> e in s.deliveries
                                || (status == Failed && snapshot.event != DeliveryFailed
                                    && s.next <= e < s.next + |targets|)
  {
    var status := ResultOf(snapshot, outcome);
    RecordIsWritten(s, snapshot, outcome, targets);
    var written := Written(s, snapshot, status);
    FanoutInOrder(written, DeliveryFailed, targets);
    FanoutAdds(written, DeliveryFailed, targets);
    hide RecordResult, Fanout, ResultOf;
  }

  lemma ResultAdmits(s: State, after: State, snapshot: Snapshot, status: Status, count: nat)
    requires forall d | d in s.deliveries :: d < s.next
    requires forall e :: e in after.deliveries
                         <==> e in s.deliveries
                              || (status == Failed && snapshot.event != DeliveryFailed && s.next <= e < s.next + count)
    ensures Admitted(s, after, snapshot.delivery, status, OpenedBy(snapshot, status, s.next, count))
  {
    FirstJobsOf(s.next, count);
    hide FirstJobs;
  }

  lemma FinishingFinishes(q: Queue, job: Job, outcome: Outcome, targets: seq<Id>)
    requires Fits(q) && Enabled(q, Finish(job, outcome, targets))
    ensures Finished(q, Execute(q, Finish(job, outcome, targets)), job, ResultOf(q.open[job].value, outcome), |targets|)
  {
    var snapshot := q.open[job].value;
    assert JobFits(q, job);
    ResultIsRecorded(q.s, snapshot, outcome, targets);
    hide RecordResult, Recorded, Admitted, OpenedBy, ResultOf;
    ResultAdmits(q.s, RecordResult(q.s, snapshot, outcome, targets), snapshot, ResultOf(snapshot, outcome), |targets|);
  }

  /** The retry that follows leaves less work than the attempt before it. */
  lemma ResultLeavesLess(snapshot: Snapshot, outcome: Outcome)
    ensures ResultOf(snapshot, outcome) == Retry ==> snapshot.attempts < 5
    ensures ResultOf(snapshot, outcome) != Pending
  {
  }

  lemma FinishedFits(q: Queue, after: Queue, job: Job, outcome: Outcome, targets: seq<Id>)
    requires Fits(q) && job in q.open && q.open[job].Some? && job.delivery in q.s.deliveries
    requires Finished(q, after, job, ResultOf(q.open[job].value, outcome), |targets|)
    ensures Fits(after)
  {
    assert JobFits(q, job);
    ResultLeavesLess(q.open[job].value, outcome);
    hide ResultOf;
    FinishedJobsFit(q, after, job, ResultOf(q.open[job].value, outcome), |targets|);
    forall d | d in after.s.deliveries && d !in after.dropped && Waiting(after.s.deliveries[d])
      ensures exists x | x in after.open :: x.delivery == d
    {
      if d == job.delivery {
        assert Job(d, After(q.open[job].value.attempts + 1)) in after.open;
      } else if d in q.s.deliveries {
        var x :| x in q.open && x.delivery == d;
        assert x in after.open;
      } else {
        assert Job(d, First) in after.open;
      }
    }
  }

  lemma FinishedJobsFit(q: Queue, after: Queue, job: Job, status: Status, count: nat)
    requires Fits(q) && job in q.open && q.open[job].Some? && JobFits(q, job)
    requires Finished(q, after, job, status, count) && (status == Retry ==> q.open[job].value.attempts < 5)
    ensures forall x | x in after.open :: JobFits(after, x)
    ensures forall x, y | x in after.open && y in after.open && x.delivery == y.delivery :: x == y
  {
    forall x | x in after.open ensures JobFits(after, x) {
      if x in q.open && x != job {
        assert JobFits(q, x);
        assert x.delivery != job.delivery;
      }
    }
    forall x, y | x in after.open && y in after.open && x.delivery == y.delivery ensures x == y {
      assert x in q.open && x != job ==> JobFits(q, x) && x.delivery != job.delivery;
      assert y in q.open && y != job ==> JobFits(q, y) && y.delivery != job.delivery;
    }
  }

  lemma StartingFits(q: Queue, job: Job)
    requires Fits(q) && Enabled(q, Start(job))
    ensures var after := Execute(q, Start(job));
            Fits(after) && after == q.(open := q.open[job := Some(Look(q.s, job.delivery))])
  {
    assert JobFits(q, job);
    var after := Execute(q, Start(job));
    forall x | x in after.open ensures JobFits(after, x) {
      assert JobFits(q, x);
    }
    forall d | d in q.s.deliveries && d !in q.dropped && Waiting(q.s.deliveries[d])
      ensures exists x | x in after.open :: x.delivery == d
    {
      var x :| x in q.open && x.delivery == d;
      assert x in after.open;
    }
  }

  lemma ThrowingFits(q: Queue, job: Job)
    requires Fits(q) && Enabled(q, Throw(job))
    ensures Fits(Execute(q, Throw(job)))
  {
    var after := Execute(q, Throw(job));
    forall x | x in after.open ensures JobFits(after, x) {
      assert JobFits(q, x);
    }
    forall d | d in after.s.deliveries && d !in after.dropped && Waiting(after.s.deliveries[d])
      ensures exists x | x in after.open :: x.delivery == d
    {
      var x :| x in q.open && x.delivery == d;
      assert x in after.open;
    }
  }

  // ---------------------------------------------------------------- every execution leaves less to do

  ghost predicate LessWork(q: Queue, after: Queue) {
    Work(after, false) < Work(q, false) || (Work(after, false) == Work(q, false) && Work(after, true) < Work(q, true))
  }

  lemma WithoutJob(deliveries: Deliveries, open: Open, job: Job, notices: bool)
    ensures Weights(deliveries, open - {job}, notices) == Weights(deliveries, open, notices) - {job}
  {
  }

  lemma WithJob(deliveries: Deliveries, open: Open, job: Job, step: Option<Snapshot>, notices: bool)
    ensures Weights(deliveries, open[job := step], notices) - {job} == Weights(deliveries, open, notices) - {job}
    ensures job in Weights(deliveries, open[job := step], notices) <==> OfNotice(deliveries, job) == notices
    ensures OfNotice(deliveries, job) == notices ==>
              Weights(deliveries, open[job := step], notices)[job] == Weight(AttemptsOf(deliveries, job), step.Some?)
  {
  }

  lemma SameWeights(deliveries: Deliveries, after: Deliveries, open: Open, notices: bool)
    requires forall job | job in open ::
               OfNotice(deliveries, job) == OfNotice(after, job) && AttemptsOf(deliveries, job) == AttemptsOf(after, job)
    ensures Weights(after, open, notices) == Weights(deliveries, open, notices)
  {
    hide Weight, OfNotice, AttemptsOf;
  }

  lemma WithNotices(deliveries: Deliveries, open: Open, added: Open)
    requires forall job | job in added :: OfNotice(deliveries, job) && job !in open
    ensures Weights(deliveries, open + added, false) == Weights(deliveries, open, false)
  {
    hide Weight, OfNotice, AttemptsOf;
  }

  lemma JobIsCounted(deliveries: Deliveries, open: Open, job: Job)
    requires job in open
    ensures var notices := OfNotice(deliveries, job);
            && job in Weights(deliveries, open, notices) && job !in Weights(deliveries, open, !notices)
            && Weights(deliveries, open, notices)[job] == Weight(AttemptsOf(deliveries, job), open[job].Some?)
  {
  }

  lemma RemovingLeavesLess(weights: map<Job, nat>, job: Job)
    ensures job in weights && weights[job] > 0 ==> Total(weights - {job}) < Total(weights)
    ensures job !in weights ==> weights - {job} == weights
  {
    if job in weights {
      TotalSplit(weights, job);
    }
  }

  lemma ReplacingLeavesLess(weights: map<Job, nat>, after: map<Job, nat>, job: Job, next: Job)
    requires job in weights && next in after && after - {next} == weights - {job} && after[next] < weights[job]
    ensures Total(after) < Total(weights)
  {
    TotalSplit(weights, job);
    TotalSplit(after, next);
  }

  lemma StartLeavesLess(q: Queue, job: Job, snapshot: Snapshot)
    requires job in q.open && q.open[job] == None && AttemptsOf(q.s.deliveries, job) <= 5
    ensures LessWork(q, q.(open := q.open[job := Some(snapshot)]))
  {
    var ds, notices := q.s.deliveries, OfNotice(q.s.deliveries, job);
    JobIsCounted(ds, q.open, job);
    WithJob(ds, q.open, job, Some(snapshot), notices);
    WithJob(ds, q.open, job, Some(snapshot), !notices);
    ReplacingLeavesLess(Weights(ds, q.open, notices), Weights(ds, q.open[job := Some(snapshot)], notices), job, job);
    RemovingLeavesLess(Weights(ds, q.open, !notices), job);
    RemovingLeavesLess(Weights(ds, q.open[job := Some(snapshot)], !notices), job);
    hide Weights, Total, OfNotice;
  }

  lemma ThrowLeavesLess(q: Queue, job: Job, dropped: set<Id>)
    requires job in q.open && AttemptsOf(q.s.deliveries, job) <= 5
    ensures LessWork(q, q.(open := q.open - {job}, dropped := dropped))
  {
    var ds, notices := q.s.deliveries, OfNotice(q.s.deliveries, job);
    JobIsCounted(ds, q.open, job);
    WithoutJob(ds, q.open, job, notices);
    WithoutJob(ds, q.open, job, !notices);
    RemovingLeavesLess(Weights(ds, q.open, notices), job);
    RemovingLeavesLess(Weights(ds, q.open, !notices), job);
    hide Weights, Total, OfNotice;
  }

  /** Once the job is gone, nothing changes for the other jobs. */
  lemma FinishedRest(q: Queue, after: Queue, job: Job, status: Status, count: nat, notices: bool)
    requires Fits(q) && job in q.open && q.open[job].Some? && JobFits(q, job) && Finished(q, after, job, status, count)
    ensures Weights(after.s.deliveries, q.open - {job}, notices) == Weights(q.s.deliveries, q.open, notices) - {job}
  {
    WithoutJob(q.s.deliveries, q.open, job, notices);
    forall x | x in q.open - {job}
      ensures OfNotice(q.s.deliveries, x) == OfNotice(after.s.deliveries, x)
      ensures AttemptsOf(q.s.deliveries, x) == AttemptsOf(after.s.deliveries, x)
    {
      assert JobFits(q, x) && x.delivery != job.delivery;
    }
    hide Weights, Fits, Finished;
    SameWeights(q.s.deliveries, after.s.deliveries, q.open - {job}, notices);
  }

  lemma GoneLeavesLess(q: Queue, after: Queue, job: Job)
    requires job in q.open && AttemptsOf(q.s.deliveries, job) <= 5
    requires Weights(after.s.deliveries, after.open, false) == Weights(q.s.deliveries, q.open, false) - {job}
    requires OfNotice(q.s.deliveries, job) ==>
               Weights(after.s.deliveries, after.open, true) == Weights(q.s.deliveries, q.open, true) - {job}
    ensures LessWork(q, after)
  {
    JobIsCounted(q.s.deliveries, q.open, job);
    RemovingLeavesLess(Weights(q.s.deliveries, q.open, true), job);
    RemovingLeavesLess(Weights(q.s.deliveries, q.open, false), job);
    hide Weights, Total, OfNotice, AttemptsOf;
  }

  /** The job goes; a retry comes in its place with less to do, or deliveries about the failure come in. */
  lemma FinishLeavesLess(q: Queue, after: Queue, job: Job, status: Status, count: nat)
    requires Fits(q) && job in q.open && q.open[job].Some? && JobFits(q, job) && Finished(q, after, job, status, count)
    ensures LessWork(q, after)
  {
    var rest, added := q.open - {job}, OpenedBy(q.open[job].value, status, q.s.next, count);
    FinishedRest(q, after, job, status, count, true);
    FinishedRest(q, after, job, status, count, false);
    FinishedOpen(q, after, job, status, count);
    FitsHere(q, job);
    hide Weights, Fits, Finished, AttemptsOf, LessWork;
    if status == Retry {
      RetryLeavesLess(q, after, job, count);
    } else if status == Failed && q.open[job].value.event != DeliveryFailed {
      NoticesAreNew(q, after, job, count);
      hide JobFits, OpenedBy, OfNotice;
      WithNotices(after.s.deliveries, rest, added);
      GoneLeavesLess(q, after, job);
    } else {
      assert added == map[] && rest + added == rest;
      hide JobFits, OfNotice;
      GoneLeavesLess(q, after, job);
    }
  }

  lemma FinishedOpen(q: Queue, after: Queue, job: Job, status: Status, count: nat)
    requires job in q.open && q.open[job].Some? && job.delivery in q.s.deliveries && Finished(q, after, job, status, count)
    ensures after.open == (q.open - {job}) + OpenedBy(q.open[job].value, status, q.s.next, count)
  {
    hide OpenedBy;
  }

  lemma NoticesAreNew(q: Queue, after: Queue, job: Job, count: nat)
    requires Fits(q) && job in q.open && q.open[job].Some? && JobFits(q, job) && Finished(q, after, job, Failed, count)
    requires q.open[job].value.event != DeliveryFailed
    ensures OfNotice(q.s.deliveries, job) == false
    ensures forall x | x in OpenedBy(q.open[job].value, Failed, q.s.next, count) ::
              OfNotice(after.s.deliveries, x) && x !in q.open - {job}
  {
    FirstJobsOf(q.s.next, count);
    hide FirstJobs;
    forall x | x in FirstJobs(q.s.next, count) ensures OfNotice(after.s.deliveries, x) && x !in q.open - {job} {
      assert x in q.open ==> JobFits(q, x);
    }
  }

  lemma RetryLeavesLess(q: Queue, after: Queue, job: Job, count: nat)
    requires Fits(q) && job in q.open && q.open[job].Some? && JobFits(q, job) && Finished(q, after, job, Retry, count)
    ensures LessWork(q, after)
  {
    var ds, later, rest := q.s.deliveries, after.s.deliveries, q.open - {job};
    var retry, notices := Job(job.delivery, After(q.open[job].value.attempts + 1)), OfNotice(ds, job);
    assert after.open == rest[retry := None];
    assert retry !in rest by {
      assert retry in rest ==> JobFits(q, retry);
    }
    assert OfNotice(later, retry) == notices && AttemptsOf(later, retry) == AttemptsOf(ds, job) + 1;
    FinishedRest(q, after, job, Retry, count, notices);
    FinishedRest(q, after, job, Retry, count, !notices);
    hide Finished, Fits, JobFits;
    JobIsCounted(ds, q.open, job);
    WithJob(later, rest, retry, None, notices);
    WithJob(later, rest, retry, None, !notices);
    NotCounted(later, rest, retry, notices);
    NotCounted(later, rest, retry, !notices);
    RemovingLeavesLess(Weights(ds, q.open, !notices), job);
    RemovingLeavesLess(Weights(later, after.open, !notices), retry);
    RemovingLeavesLess(Weights(later, rest, notices), retry);
    RemovingLeavesLess(Weights(later, rest, !notices), retry);
    hide Weights, Total, OfNotice, AttemptsOf;
    ReplacingLeavesLess(Weights(ds, q.open, notices), Weights(later, after.open, notices), job, retry);
  }

  lemma NotCounted(deliveries: Deliveries, open: Open, job: Job, notices: bool)
    requires job !in open
    ensures job !in Weights(deliveries, open, notices)
  {
  }

  lemma FitsHere(q: Queue, job: Job)
    requires Fits(q) && job in q.open
    ensures JobFits(q, job) && AttemptsOf(q.s.deliveries, job) <= 5
  {
    assert JobFits(q, job);
  }

  lemma ExecutionProgresses(q: Queue, x: Execution)
    requires Fits(q) && Enabled(q, x)
    ensures Fits(Execute(q, x)) && LessWork(q, Execute(q, x))
  {
    hide Fits, JobFits, LessWork, Finished, RecordResult, OpenedBy;
    FitsHere(q, x.job);
    match x {
      case Start(job) =>
        StartingFits(q, job);
        StartLeavesLess(q, job, Look(q.s, job.delivery));
      case Finish(job, outcome, targets) =>
        FinishingFinishes(q, job, outcome, targets);
        FinishedFits(q, Execute(q, x), job, outcome, targets);
        FinishLeavesLess(q, Execute(q, x), job, ResultOf(q.open[job].value, outcome), |targets|);
      case Throw(job) =>
        ThrowingFits(q, job);
        ThrowLeavesLess(q, job, q.dropped + {job.delivery});
    }
  }

  // ---------------------------------------------------------------- no endless run

  lemma EndpointsDoNotMatter(q: Queue, endpoints: map<Id, Endpoint>)
    requires Fits(q)
    ensures var v := WithEndpoints(q, endpoints);
            Fits(v) && Work(v, false) == Work(q, false) && Work(v, true) == Work(q, true)
  {
    var v := WithEndpoints(q, endpoints);
    forall job | job in v.open ensures JobFits(v, job) {
      assert JobFits(q, job);
    }
  }

  lemma AdvancingProgresses(q: Queue, after: Queue)
    requires Fits(q) && Advances(q, after)
    ensures Fits(after) && LessWork(q, after)
  {
    var endpoints, x :| Enabled(WithEndpoints(q, endpoints), x)
                        && after == Execute(WithEndpoints(q, endpoints), x);
    hide Fits, Work, Enabled, Execute;
    EndpointsDoNotMatter(q, endpoints);
    ExecutionProgresses(WithEndpoints(q, endpoints), x);
  }

  /** From `n` on, the run stops somewhere. */
  lemma {:induction false} RunStops(run: nat -> Queue, n: nat) returns (stop: nat)
    requires Fits(run(n))
    ensures n <= stop && Fits(run(stop)) && !Advances(run(stop), run(stop + 1))
    decreases Work(run(n), false), Work(run(n), true)
  {
    hide Fits, Advances, Work;
    if Advances(run(n), run(n + 1)) {
      AdvancingProgresses(run(n), run(n + 1));
      stop := RunStops(run, n + 1);
    } else {
      stop := n;
    }
  }

  /** The state right after one event. */
  function AfterEvent(s: State, name: string, targets: seq<Id>): Queue {
    Queue(Fanout(s, Other(name), targets), FirstJobs(s.next, |targets|), {})
  }

  lemma EventFits(s: State, name: string, targets: seq<Id>)
    requires s.deliveries == map[]
    ensures Fits(AfterEvent(s, name, targets))
  {
    FanoutInOrder(s, Other(name), targets);
    FanoutNumbers(s, Other(name), targets);
    FirstJobsOf(s.next, |targets|);
    var q := AfterEvent(s, name, targets);
    hide Fanout, FirstJobs;
    forall d | d in q.s.deliveries ensures exists job | job in q.open :: job.delivery == d {
      assert Job(d, First) in q.open;
    }
  }

  predicate SixAttemptsAtMost(q: Queue) {
    forall d | d in q.s.deliveries :: q.s.deliveries[d].attempts <= 6
  }

  ghost predicate Drained(run: nat -> Queue, n: nat) {
    !Advances(run(n), run(n + 1)) && SixAttemptsAtMost(run(n))
  }

  /**
   Whatever order the jobs are executed in and however the endpoints answer,
   the deliveries started by one event come to an end, none of them with more
   than six recorded attempts.
   */
  lemma DeliveryDrains(run: nat -> Queue, s: State, name: string, targets: seq<Id>)
    requires s.deliveries == map[] && run(0) == AfterEvent(s, name, targets)
    ensures exists n :: Drained(run, n)
  {
    EventFits(s, name, targets);
    hide AfterEvent, Advances;
    var n := RunStops(run, 0);
    assert Drained(run, n);
  }

  /** As long as something is undecided there is a job to execute, unless a job of it threw. */
  lemma DrainedIsSettled(q: Queue)
    requires Fits(q)
    ensures (exists x :: Enabled(q, x))
            || forall d | d in q.s.deliveries && d !in q.dropped ::
                 q.s.deliveries[d].status == Delivered || q.s.deliveries[d].status == Failed
  {
    if job :| job in q.open {
      FitsHere(q, job);
      assert Enabled(q, if q.open[job].None? then Start(job) else Throw(job));
    } else {
      assert forall d | d in q.s.deliveries && d !in q.dropped :: !Waiting(q.s.deliveries[d]);
    }
  }
}
