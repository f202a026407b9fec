/** The durable job queue: rows, leases and dedupe keys, under any number of workers. */
module JobQueue {
  import opened Results

  type Id = nat
  type Time = int
  type Worker = string

  datatype Status = Queued | Running | Retry | Completed | DeadLetter

  datatype Kind = DeliverWebhook | ReconcileTransaction

  datatype Queue = Webhook | Settlement

  function QueueForKind(kind: Kind): Queue {
    if kind == ReconcileTransaction then Settlement else Webhook
  }

  /** A worker's hold on a job. */
  datatype Lock = Lock(worker: Worker, at: Time)

  datatype Job = Job(kind: Kind, payload: string, status: Status, dedupeKey: Option<string>, attempts: nat, maxAttempts: nat,
                     createdAt: Time, availableAt: Time, lock: Option<Lock>, leaseExpiresAt: Option<Time>)

  type Jobs = map<Id, Job>

  const LIVE: set<Status> := {Queued, Running, Retry}
  const FINISHED: set<Status> := {Completed, DeadLetter}
  const RETRY_BASE := 5_000
  const RETRY_MAX := 900_000

  function Clamp(n: int, low: int, high: int): int {
    if n < low then low else if n > high then high else n
  }

  // ---------------------------------------------------------------- retry delay

  function Pow2(n: nat): nat {
    if n == 0 then 1 else 2 * Pow2(n - 1)
  }

  function MinInt(a: int, b: int): int {
    if a < b then a else b
  }

  function Backoff(attempt: int): int {
    MinInt(RETRY_MAX, RETRY_BASE * Pow2(if attempt <= 1 then 0 else attempt - 1))
  }

  /** Half to one and a half times the exponential delay, rounded to the nearest millisecond. */
  function RetryDelay(attempt: int, random: real): int {
    MinInt(RETRY_MAX, Jittered(Backoff(attempt), random))
  }

  lemma {:induction false} Pow2Grows(n: nat, m: nat)
    requires n <= m
    ensures 1 <= Pow2(n) <= Pow2(m)
    decreases m
  {
    if n < m {
      Pow2Grows(n, m - 1);
    } else if n > 0 {
      Pow2Grows(n - 1, n - 1);
    }
  }

  lemma BackoffBounds(attempt: int, later: int)
    requires attempt <= later
    ensures RETRY_BASE <= Backoff(attempt) <= Backoff(later) <= RETRY_MAX
  {
    Pow2Grows(if attempt <= 1 then 0 else attempt - 1, if later <= 1 then 0 else later - 1);
  }

  /** The delay starts at five seconds and doubles with every attempt, up to a quarter of an hour. */
  lemma {:induction false} BackoffDoubles(attempt: int)
    ensures attempt <= 1 ==> Backoff(attempt) == 5_000
    ensures 1 <= attempt ==>
              Backoff(attempt + 1) == if 2 * Backoff(attempt) <= 15 * 60_000 then 2 * Backoff(attempt) else 15 * 60_000
  {
    if 1 <= attempt {
      Pow2Grows(0, attempt - 1);
      assert Pow2(attempt) == 2 * Pow2(attempt - 1);
    }
  }

  function Jittered(delay: int, random: real): int {
    (delay as real * (0.5 + random) + 0.5).Floor
  }

  lemma JitterBounds(delay: int, random: real)
    requires 0.0 <= random < 1.0 && 0 <= delay
    ensures delay <= 2 * Jittered(delay, random) <= 3 * delay + 1
  {
    var d, exact := delay as real, delay as real * (0.5 + random);
    Scaled(0.5, 0.5 + random, d);
    Scaled(0.5 + random, 1.5, d);
    assert 0.5 * d <= exact <= 1.5 * d;
    var rounded := Jittered(delay, random);
    assert rounded as real <= exact + 0.5 < rounded as real + 1.0;
  }

  lemma JitterGrows(delay: int, later: int, random: real)
    requires 0.0 <= random && 0 <= delay <= later
    ensures Jittered(delay, random) <= Jittered(later, random)
  {
    Scaled(delay as real, later as real, 0.5 + random);
  }

  /** A retry waits at least two and a half seconds and at most fifteen minutes, and later attempts wait no less. */
  lemma RetryDelayBounds(attempt: int, later: int, random: real)
    requires 0.0 <= random < 1.0 && attempt <= later
    ensures 2_500 <= RetryDelay(attempt, random) <= RETRY_MAX
    ensures RetryDelay(attempt, random) <= RetryDelay(later, random)
    ensures Backoff(attempt) <= 2 * RetryDelay(attempt, random) <= 3 * Backoff(attempt) + 1
    ensures var exact := Backoff(attempt) as real * (0.5 + random);
            if exact < RETRY_MAX as real then exact - 0.5 <= RetryDelay(attempt, random) as real <= exact + 0.5
            else RetryDelay(attempt, random) == RETRY_MAX
  {
    BackoffBounds(attempt, later);
    Rounded(Backoff(attempt), random);
    JitterBounds(Backoff(attempt), random);
    JitterGrows(Backoff(attempt), Backoff(later), random);
    hide Backoff, Jittered;
  }

  lemma Rounded(delay: int, random: real)
    ensures delay as real * (0.5 + random) - 0.5 <= Jittered(delay, random) as real <= delay as real * (0.5 + random) + 0.5
  {
  }

  lemma Scaled(a: real, b: real, factor: real)
    requires 0.0 <= a <= b && 0.0 <= factor
    ensures a * factor <= b * factor && factor * a <= factor * b
  {
  }

  // ---------------------------------------------------------------- what the row operations do

  /** Releases the lock of a job that the worker still holds; otherwise the operation throws. */
  predicate Owned(jobs: Jobs, id: Id, worker: Worker) {
    id in jobs && jobs[id].status == Running && jobs[id].lock.Some? && jobs[id].lock.value.worker == worker
  }

  function Unlocked(job: Job): Job {
    job.(lock := None, leaseExpiresAt := None)
  }

  function Complete(jobs: Jobs, id: Id, worker: Worker): Jobs {
    if Owned(jobs, id, worker) then jobs[id := Unlocked(jobs[id]).(status := Completed, dedupeKey := None)] else jobs
  }

  function Defer(jobs: Jobs, id: Id, worker: Worker, delay: int, now: Time): Jobs {
    if Owned(jobs, id, worker)
    then jobs[id := Unlocked(jobs[id]).(status := Retry, availableAt := now + Clamp(delay, 1_000, 900_000))]
    else jobs
  }

  /** The verdict on a failure looks at the attempts the worker saw when it claimed the job. */
  function Fail(jobs: Jobs, id: Id, worker: Worker, seenAttempts: nat, maxAttempts: nat, random: real, now: Time): Jobs {
    if !Owned(jobs, id, worker) then jobs
    else if seenAttempts >= maxAttempts then jobs[id := Unlocked(jobs[id]).(status := DeadLetter, dedupeKey := None)]
    else jobs[id := Unlocked(jobs[id]).(status := Retry, availableAt := now + RetryDelay(seenAttempts, random))]
  }

  function Renew(jobs: Jobs, id: Id, worker: Worker, lease: int, now: Time): Jobs {
    if Owned(jobs, id, worker) then jobs[id := jobs[id].(leaseExpiresAt := Some(now + lease))] else jobs
  }

  predicate Stale(job: Job, now: Time, patience: int) {
    && job.status == Running
    && (if job.leaseExpiresAt.Some? then job.leaseExpiresAt.value < now
        else job.lock.Some? && job.lock.value.at < now - patience)
  }

  function ReleaseStale(jobs: Jobs, now: Time, patience: int): Jobs {
    map id | id in jobs :: if Stale(jobs[id], now, patience) then Unlocked(jobs[id]).(status := Retry, availableAt := now)
                           else jobs[id]
  }

  function NewJob(kind: Kind, payload: string, key: Option<string>, maxAttempts: nat, availableAt: Time, now: Time): Job {
    Job(kind, payload, Queued, key, 0, maxAttempts, now, availableAt, None, None)
  }

  predicate KeyHeld(jobs: Jobs, key: Option<string>) {
    key.Some? && exists id | id in jobs :: jobs[id].dedupeKey == key
  }

  /** A finished job starts over as a new one, without its dedupe key. */
  function Replay(jobs: Jobs, id: Id, copy: Id, now: Time): Jobs {
    if id in jobs && jobs[id].status in FINISHED && copy !in jobs
    then jobs[copy := NewJob(jobs[id].kind, jobs[id].payload, None, jobs[id].maxAttempts, now, now)]
    else jobs
  }

  predicate Claimable(job: Job, queues: set<Queue>, now: Time) {
    && QueueForKind(job.kind) in queues && (job.status == Queued || job.status == Retry) && job.availableAt <= now
    && (job.leaseExpiresAt.Some? ==> job.leaseExpiresAt.value <= now)
  }

  /** The claimable jobs that no other claim has locked at this moment. */
  function Candidates(jobs: Jobs, queues: set<Queue>, busy: set<Id>, now: Time): set<Id> {
    set id | id in jobs && id !in busy && Claimable(jobs[id], queues, now)
  }

  predicate NotAfter(first: Job, second: Job) {
    first.availableAt < second.availableAt
    || (first.availableAt == second.availableAt && first.createdAt <= second.createdAt)
  }

  /** As many candidates as the limit allows, and none that must wait behind one left out. */
  predicate Oldest(jobs: Jobs, chosen: set<Id>, candidates: set<Id>, limit: nat)
    requires candidates <= jobs.Keys
  {
    && chosen <= candidates
    && |chosen| == (if |candidates| < limit then |candidates| else limit)
    && forall c, d | c in chosen && d in candidates - chosen :: NotAfter(jobs[c], jobs[d])
  }

  function Claimed(job: Job, worker: Worker, lease: int, now: Time): Job {
    job.(status := Running, lock := Some(Lock(worker, now)), leaseExpiresAt := Some(now + Clamp(lease, 10_000, 900_000)),
         attempts := job.attempts + 1)
  }

  function Claim(jobs: Jobs, chosen: set<Id>, worker: Worker, lease: int, now: Time): Jobs {
    map id | id in jobs :: if id in chosen then Claimed(jobs[id], worker, lease, now) else jobs[id]
  }

  // ---------------------------------------------------------------- any number of workers

  /** A worker's run of one claimed job, with the attempts it saw. */
  datatype Execution = Execution(job: Id, worker: Worker, seen: nat)

  datatype State = State(now: Time, jobs: Jobs, live: set<Execution>, requeues: seq<Execution>)

  const START: State := State(0, map[], {}, [])

  datatype Step =
    | Tick(time: nat)
    | Create(id: Id, kind: Kind, payload: string, key: Option<string>, maxAttempts: nat, availableAt: Time)
    | ClaimJobs(worker: Worker, chosen: set<Id>, queues: set<Queue>, lease: int)
    | CompleteJob(x: Execution)
    | DeferJob(x: Execution, delay: int)
    | FailJob(x: Execution, random: real)
    | RenewJob(x: Execution, lease: int)
    | Abandon(x: Execution)
    | ReleaseLocks(patience: int)
    | ReplayJob(id: Id, copy: Id)

  function Executions(jobs: Jobs, chosen: set<Id>, worker: Worker): set<Execution> {
    set id | id in chosen && id in jobs :: Execution(id, worker, jobs[id].attempts + 1)
  }

  function Next(s: State, step: Step): State {
    match step
    case Tick(time) => s.(now := s.now + time)
    case Create(id, kind, payload, key, maxAttempts, availableAt) =>
      if id in s.jobs || KeyHeld(s.jobs, key) then s
      else s.(jobs := s.jobs[id := NewJob(kind, payload, key, maxAttempts, availableAt, s.now)])
    case ClaimJobs(worker, chosen, queues, lease) =>
      if forall id | id in chosen :: id in s.jobs && Claimable(s.jobs[id], queues, s.now)
      then s.(jobs := Claim(s.jobs, chosen, worker, lease, s.now), live := s.live + Executions(s.jobs, chosen, worker))
      else s
    case CompleteJob(x) =>
      if x in s.live && Owned(s.jobs, x.job, x.worker)
      then s.(jobs := Complete(s.jobs, x.job, x.worker), live := s.live - {x})
      else s
    case DeferJob(x, delay) =>
      if x in s.live && Owned(s.jobs, x.job, x.worker)
      then s.(jobs := Defer(s.jobs, x.job, x.worker, delay, s.now), live := s.live - {x})
      else s
    case FailJob(x, random) =>
      if x in s.live && x.job in s.jobs then
        var max := s.jobs[x.job].maxAttempts;
        var requeued := Owned(s.jobs, x.job, x.worker) && x.seen < max;
        s.(jobs := Fail(s.jobs, x.job, x.worker, x.seen, max, random, s.now), live := s.live - {x},
           requeues := if requeued then s.requeues + [x] else s.requeues)
      else s
    case RenewJob(x, lease) => if x in s.live then s.(jobs := Renew(s.jobs, x.job, x.worker, lease, s.now)) else s
    case Abandon(x) => s.(live := s.live - {x})
    case ReleaseLocks(patience) => s.(jobs := ReleaseStale(s.jobs, s.now, patience))
    case ReplayJob(id, copy) => s.(jobs := Replay(s.jobs, id, copy, s.now))
  }

  function Run(s: State, steps: seq<Step>): State {
    if steps == [] then s else Next(Run(s, steps[..|steps| - 1]), steps[|steps| - 1])
  }

  // ---------------------------------------------------------------- what the rows keep

  /** A job is locked exactly while it runs, and only a job that is not finished holds a dedupe key. */
  predicate RowFits(job: Job) {
    && (job.status == Running <==> job.lock.Some?)
    && (job.leaseExpiresAt.Some? ==> job.status == Running)
    && (job.dedupeKey.Some? ==> job.status in LIVE)
  }

  ghost predicate KeysAreUnique(jobs: Jobs) {
    forall i, j | i in jobs && j in jobs && jobs[i].dedupeKey.Some? && jobs[i].dedupeKey == jobs[j].dedupeKey :: i == j
  }

  ghost predicate RowsFit(jobs: Jobs) {
    KeysAreUnique(jobs) && forall id | id in jobs :: RowFits(jobs[id])
  }

  /** How an operation may change the rows. */
  ghost predicate RowStep(before: Job, after: Job) {
    && after.maxAttempts == before.maxAttempts && before.attempts <= after.attempts
    && (after.dedupeKey == before.dedupeKey || after.dedupeKey == None)
    && (before.status in FINISHED ==> after == before)
  }

  ghost predicate RowsStep(jobs: Jobs, after: Jobs) {
    forall id | id in jobs :: id in after && RowStep(jobs[id], after[id])
  }

  lemma NextSteps(s: State, step: Step)
    requires RowsFit(s.jobs)
    ensures RowsStep(s.jobs, Next(s, step).jobs)
  {
    hide RetryDelay, Clamp, KeyHeld, QueueForKind, KeysAreUnique, Executions;
  }

  lemma NextKeepsRows(s: State, step: Step)
    requires RowsFit(s.jobs)
    ensures forall id | id in Next(s, step).jobs :: RowFits(Next(s, step).jobs[id])
  {
  }

  lemma NextKeepsKeys(s: State, step: Step)
    requires RowsFit(s.jobs)
    ensures KeysAreUnique(Next(s, step).jobs)
  {
    NextSteps(s, step);
    var after := Next(s, step).jobs;
    forall i, j | i in after && j in after && after[i].dedupeKey.Some? && after[i].dedupeKey == after[j].dedupeKey
      ensures i == j
    {
      NewKeysAreFree(s, step, i, j);
    }
  }

  lemma NewKeysAreFree(s: State, step: Step, i: Id, j: Id)
    requires RowsFit(s.jobs) && RowsStep(s.jobs, Next(s, step).jobs)
    requires var after := Next(s, step).jobs;
             i in after && j in after && after[i].dedupeKey.Some? && after[i].dedupeKey == after[j].dedupeKey
    ensures i == j
  {
    var after := Next(s, step).jobs;
    if i !in s.jobs || j !in s.jobs {
      assert step.Create? || step.ReplayJob?;
    } else {
      hide Next;
      assert RowStep(s.jobs[i], after[i]) && RowStep(s.jobs[j], after[j]);
    }
  }

  lemma {:induction false} RunKeepsRows(s: State, steps: seq<Step>)
    requires RowsFit(s.jobs)
    ensures RowsFit(Run(s, steps).jobs)
  {
    hide Next, RowFits, KeysAreUnique;
    if steps != [] {
      RunKeepsRows(s, steps[..|steps| - 1]);
      NextKeepsRows(Run(s, steps[..|steps| - 1]), steps[|steps| - 1]);
      NextKeepsKeys(Run(s, steps[..|steps| - 1]), steps[|steps| - 1]);
    }
  }

  /** No two jobs share a dedupe key, and only jobs that are not finished hold one. */
  lemma {:induction false} DedupeKeysAreExclusive(steps: seq<Step>, i: Id, j: Id)
    ensures var jobs := Run(START, steps).jobs;
            i in jobs && j in jobs && jobs[i].dedupeKey.Some? && jobs[i].dedupeKey == jobs[j].dedupeKey ==>
              i == j && jobs[i].status in LIVE
  {
    RunKeepsRows(START, steps);
    hide Run;
  }

  /** A finished job stays as it is, whatever happens to the queue. */
  lemma {:induction false} FinishedStays(s: State, steps: seq<Step>, id: Id)
    requires RowsFit(s.jobs) && id in s.jobs && s.jobs[id].status in FINISHED
    ensures id in Run(s, steps).jobs && Run(s, steps).jobs[id] == s.jobs[id]
  {
    hide Next, RowsFit;
    if steps != [] {
      var before := Run(s, steps[..|steps| - 1]);
      FinishedStays(s, steps[..|steps| - 1], id);
      RunKeepsRows(s, steps[..|steps| - 1]);
      NextSteps(before, steps[|steps| - 1]);
    }
  }

  // ---------------------------------------------------------------- fencing

  predicate ClaimsFor(step: Step, id: Id, worker: Worker) {
    step.ClaimJobs? && step.worker == worker && id in step.chosen
  }

  lemma LocksComeFromClaims(s: State, step: Step, id: Id, worker: Worker)
    requires !Owned(s.jobs, id, worker) && !ClaimsFor(step, id, worker)
    ensures !Owned(Next(s, step).jobs, id, worker)
  {
  }

  /**
   A worker that does not hold the lock of a job can neither complete, defer,
   fail nor renew it, until it claims the job again.
   */
  lemma {:induction false} FencedUntilClaimed(s: State, steps: seq<Step>, id: Id, worker: Worker, delay: int, seen: nat,
                                              random: real, lease: int)
    requires !Owned(s.jobs, id, worker)
    requires forall i | 0 <= i < |steps| :: !ClaimsFor(steps[i], id, worker)
    ensures var v := Run(s, steps);
            && !Owned(v.jobs, id, worker)
            && Complete(v.jobs, id, worker) == v.jobs && Defer(v.jobs, id, worker, delay, v.now) == v.jobs
            && Renew(v.jobs, id, worker, lease, v.now) == v.jobs
            && (forall max :: Fail(v.jobs, id, worker, seen, max, random, v.now) == v.jobs)
  {
    hide Next, Owned;
    if steps != [] {
      FencedUntilClaimed(s, steps[..|steps| - 1], id, worker, delay, seen, random, lease);
      LocksComeFromClaims(Run(s, steps[..|steps| - 1]), steps[|steps| - 1], id, worker);
    }
  }

  // ---------------------------------------------------------------- leases

  /** Releasing stale locks, field by field: exactly the jobs whose lease ended before now come back, available at once. */
  lemma StaleJobsComeBack(jobs: Jobs, now: Time, patience: int, id: Id)
    requires id in jobs
    ensures var before, released := jobs[id], ReleaseStale(jobs, now, patience);
            var over := match before.leaseExpiresAt
                        case Some(end) => end < now
                        case None => before.lock.Some? && before.lock.value.at < now - patience;
            && released.Keys == jobs.Keys
            && released[id] == if before.status == Running && over
                               then Job(before.kind, before.payload, Retry, before.dedupeKey, before.attempts,
                                        before.maxAttempts, before.createdAt, now, None, None)
                               else before
  {
  }

  /** The job's lease has not ended yet. */
  predicate LeaseLasts(s: State, id: Id) {
    id in s.jobs && s.jobs[id].leaseExpiresAt.Some? && s.now <= s.jobs[id].leaseExpiresAt.value
  }

  /** The worker itself completes, defers or fails the job. */
  predicate GivesBack(s: State, step: Step, id: Id, worker: Worker) {
    && (step.CompleteJob? || step.DeferJob? || step.FailJob?)
    && step.x in s.live && step.x.job == id && step.x.worker == worker
  }

  /** One step takes the lock from its worker exactly if the worker gives it back, or locks are released after its lease. */
  lemma LockIsLost(s: State, step: Step, id: Id, worker: Worker)
    requires RowsFit(s.jobs) && Owned(s.jobs, id, worker) && s.jobs[id].leaseExpiresAt.Some?
    ensures Owned(Next(s, step).jobs, id, worker)
            <==> !GivesBack(s, step, id, worker) && (step.ReleaseLocks? ==> LeaseLasts(s, id))
    ensures Owned(Next(s, step).jobs, id, worker) ==> Next(s, step).jobs[id].leaseExpiresAt.Some?
  {
    if step.Tick? || step.Create? || step.ClaimJobs? || step.Abandon? || step.ReplayJob? {
      hide Next;
      LockStays(s, step, id, worker);
    } else {
      hide RetryDelay, Clamp, KeysAreUnique;
    }
  }

  lemma LockStays(s: State, step: Step, id: Id, worker: Worker)
    requires RowsFit(s.jobs) && Owned(s.jobs, id, worker)
    requires step.Tick? || step.Create? || step.ClaimJobs? || step.Abandon? || step.ReplayJob?
    ensures id in Next(s, step).jobs && Next(s, step).jobs[id] == s.jobs[id]
  {
  }

  /** Renewing sets the end of the lease to its length from now. */
  lemma RenewalExtends(s: State, x: Execution, lease: int)
    requires x in s.live && Owned(s.jobs, x.job, x.worker)
    ensures var v := Next(s, RenewJob(x, lease));
            v.jobs == s.jobs[x.job := s.jobs[x.job].(leaseExpiresAt := Some(s.now + lease))] && v.now == s.now
  {
  }

  /**
   A worker that renews its lease in time, so that it lasts whenever locks are
   released, keeps the job through everything that happens, until it gives
   the job back itself.
   */
  lemma {:induction false} KeptWhileRenewed(s: State, steps: seq<Step>, id: Id, worker: Worker)
    requires RowsFit(s.jobs) && Owned(s.jobs, id, worker) && s.jobs[id].leaseExpiresAt.Some?
    requires forall i | 0 <= i < |steps| ::
               && !GivesBack(Run(s, steps[..i]), steps[i], id, worker)
               && (steps[i].ReleaseLocks? ==> LeaseLasts(Run(s, steps[..i]), id))
    ensures Owned(Run(s, steps).jobs, id, worker) && Run(s, steps).jobs[id].leaseExpiresAt.Some?
  {
    hide Next, RowsFit, GivesBack, LeaseLasts;
    if steps != [] {
      var front, last := steps[..|steps| - 1], |steps| - 1;
      assert forall i | 0 <= i < |front| :: front[..i] == steps[..i] && front[i] == steps[i];
      KeptWhileRenewed(s, front, id, worker);
      RunKeepsRows(s, front);
      assert steps[..last] == front;
      assert !GivesBack(Run(s, steps[..last]), steps[last], id, worker);
      LockIsLost(Run(s, front), steps[last], id, worker);
    }
  }

  /** A worker that stopped does nothing any more, and its job stays locked until its lease is over. */
  lemma StoppedWorkerIsSilent(s: State, x: Execution, delay: int, random: real, lease: int)
    ensures var stopped := Next(s, Abandon(x));
            && stopped.jobs == s.jobs
            && Next(stopped, CompleteJob(x)) == stopped && Next(stopped, DeferJob(x, delay)) == stopped
            && Next(stopped, FailJob(x, random)) == stopped && Next(stopped, RenewJob(x, lease)) == stopped
  {
  }

  // ---------------------------------------------------------------- who gets a job, and when

  /** A claim of one job succeeds exactly if it waits, in one of the queues asked for, its time has come and no lease runs. */
  lemma ClaimTakes(s: State, id: Id, worker: Worker, queues: set<Queue>, lease: int)
    ensures var v := Next(s, ClaimJobs(worker, {id}, queues, lease));
            if id in s.jobs && s.jobs[id].status in {Queued, Retry} && s.jobs[id].availableAt <= s.now
               && (if s.jobs[id].kind == ReconcileTransaction then Settlement else Webhook) in queues
               && (s.jobs[id].leaseExpiresAt == None || s.jobs[id].leaseExpiresAt.value <= s.now)
            then
              var bounded := if lease < 10_000 then 10_000 else if lease > 15 * 60_000 then 15 * 60_000 else lease;
              && v.jobs == s.jobs[id := s.jobs[id].(status := Running, attempts := s.jobs[id].attempts + 1,
                                                    lock := Some(Lock(worker, s.now)),
                                                    leaseExpiresAt := Some(s.now + bounded))]
              && v.live == s.live + {Execution(id, worker, s.jobs[id].attempts + 1)}
            else v == s
  {
    assert id in s.jobs ==> Executions(s.jobs, {id}, worker) == {Execution(id, worker, s.jobs[id].attempts + 1)};
    assert id in {id};
  }

  /**
   A claim of several jobs takes at least one and at most a hundred if there
   are any, leaves one out only when it has as many as it asked for, and then
   none that became available later than one left out.
   */
  lemma OldestFirst(jobs: Jobs, chosen: set<Id>, queues: set<Queue>, busy: set<Id>, limit: int, now: Time, d: Id)
    requires Oldest(jobs, chosen, Candidates(jobs, queues, busy, now), Clamp(limit, 1, 100))
    ensures |chosen| <= 100 && (limit < 1 ==> |chosen| <= 1) && (1 <= limit ==> |chosen| <= limit)
    ensures d in jobs && d !in busy && d !in chosen && jobs[d].status in {Queued, Retry} && jobs[d].availableAt <= now
            && (if jobs[d].kind == ReconcileTransaction then Settlement else Webhook) in queues
            && (jobs[d].leaseExpiresAt == None || jobs[d].leaseExpiresAt.value <= now) ==>
              && |chosen| == (if limit < 1 then 1 else if limit > 100 then 100 else limit)
              && forall c | c in chosen ::
                   || jobs[c].availableAt < jobs[d].availableAt
                   || (jobs[c].availableAt == jobs[d].availableAt && jobs[c].createdAt <= jobs[d].createdAt)
    ensures forall c | c in chosen :: c in jobs && c !in busy && jobs[c].status in {Queued, Retry} && jobs[c].availableAt <= now
  {
    var candidates := Candidates(jobs, queues, busy, now);
    if d in candidates && d !in chosen && |candidates| <= |chosen| {
      SmallerIds(chosen, candidates - {d});
    }
  }

  lemma SmallerIds(small: set<Id>, big: set<Id>)
    requires small <= big
    ensures |small| <= |big|
  {
    assert big == small + (big - small);
  }

  /** A completed job is over and its key is free; a finished one that is replayed starts again as new. */
  lemma CompletedAndReplayed(s: State, x: Execution, copy: Id)
    requires x in s.live && Owned(s.jobs, x.job, x.worker) && copy !in s.jobs
    ensures var job, done := s.jobs[x.job], Next(s, CompleteJob(x));
            var again := Next(done, ReplayJob(x.job, copy));
            && done.jobs == s.jobs[x.job := job.(status := Completed, dedupeKey := None, lock := None, leaseExpiresAt := None)]
            && again.jobs == done.jobs[copy := Job(job.kind, job.payload, Queued, None, 0, job.maxAttempts, s.now, s.now,
                                                   None, None)]
  {
  }

  /** A key that nobody holds gets a new job; one that is held does not, whoever holds it. */
  lemma NewJobsAreQueued(s: State, id: Id, kind: Kind, payload: string, key: Option<string>, max: nat, availableAt: Time)
    requires id !in s.jobs
    ensures Next(s, Create(id, kind, payload, key, max, availableAt)).jobs
            == if key.Some? && exists other | other in s.jobs :: s.jobs[other].dedupeKey == key then s.jobs
               else s.jobs[id := Job(kind, payload, Queued, key, 0, max, s.now, availableAt, None, None)]
  {
  }

  /** The job of a worker that crashed: once its lease is over and locks are released, any other worker can take it. */
  lemma CrashedJobIsTakenOver(s: State, id: Id, worker: Worker, patience: int, lease: int)
    requires id in s.jobs && s.jobs[id].status == Running && s.jobs[id].leaseExpiresAt.Some?
    requires s.jobs[id].leaseExpiresAt.value < s.now
    ensures var v := Next(Next(s, ReleaseLocks(patience)), ClaimJobs(worker, {id}, {Webhook, Settlement}, lease));
            Owned(v.jobs, id, worker) && v.jobs[id].attempts == s.jobs[id].attempts + 1
  {
    StaleJobsComeBack(s.jobs, s.now, patience, id);
    var released := Next(s, ReleaseLocks(patience));
    ClaimTakes(released, id, worker, {Webhook, Settlement}, lease);
    hide ReleaseStale, Claim, Clamp;
  }

  /** Until its time comes, nothing happens to a waiting job. */
  lemma WaitingStays(s: State, step: Step, id: Id)
    requires id in s.jobs && s.jobs[id].status in {Queued, Retry} && s.now < s.jobs[id].availableAt
    ensures id in Next(s, step).jobs && Next(s, step).jobs[id] == s.jobs[id] && s.now <= Next(s, step).now
  {
    hide RetryDelay, Clamp, KeyHeld, Executions;
  }

  lemma {:induction false} TimePasses(s: State, steps: seq<Step>)
    ensures s.now <= Run(s, steps).now
  {
    hide RetryDelay, Clamp, KeyHeld, Executions, Claimable, Owned, Replay, ReleaseStale;
    if steps != [] {
      TimePasses(s, steps[..|steps| - 1]);
    }
  }

  lemma {:induction false} WaitsItsTurn(s: State, steps: seq<Step>, id: Id)
    requires id in s.jobs && s.jobs[id].status in {Queued, Retry} && Run(s, steps).now < s.jobs[id].availableAt
    ensures id in Run(s, steps).jobs && Run(s, steps).jobs[id] == s.jobs[id]
  {
    if steps != [] {
      var before, last := Run(s, steps[..|steps| - 1]), steps[|steps| - 1];
      TimePasses(before, [last]);
      assert [last][..0] == [];
      hide Next;
      WaitsItsTurn(s, steps[..|steps| - 1], id);
      WaitingStays(before, last, id);
    }
  }

  /** Deferring a job: nobody runs it before the delay is over, which is bounded by a second and a quarter of an hour. */
  lemma {:induction false} DeferredJobWaits(s: State, x: Execution, delay: int, steps: seq<Step>)
    requires x in s.live && Owned(s.jobs, x.job, x.worker)
    ensures var bounded := if delay < 1_000 then 1_000 else if delay > 15 * 60_000 then 15 * 60_000 else delay;
            var v := Next(s, DeferJob(x, delay));
            && v.jobs == s.jobs[x.job := s.jobs[x.job].(status := Retry, lock := None, leaseExpiresAt := None,
                                                        availableAt := s.now + bounded)]
            && (Run(v, steps).now < s.now + bounded ==>
                  x.job in Run(v, steps).jobs && Run(v, steps).jobs[x.job] == v.jobs[x.job])
  {
    var v := Next(s, DeferJob(x, delay));
    if Run(v, steps).now < v.jobs[x.job].availableAt {
      WaitsItsTurn(v, steps, x.job);
    }
    hide Run;
  }

  /** A failed job either ends, when its attempts are used up, or waits its retry delay and is not run before. */
  lemma {:induction false} FailedJobWaits(s: State, x: Execution, random: real, steps: seq<Step>)
    requires x in s.live && Owned(s.jobs, x.job, x.worker)
    ensures var job, v := s.jobs[x.job], Next(s, FailJob(x, random));
            if x.seen >= job.maxAttempts
            then v.jobs == s.jobs[x.job := job.(status := DeadLetter, dedupeKey := None, lock := None, leaseExpiresAt := None)]
            else
              var until := s.now + RetryDelay(x.seen, random);
              && v.jobs == s.jobs[x.job := job.(status := Retry, lock := None, leaseExpiresAt := None, availableAt := until)]
              && (Run(v, steps).now < until ==>
                    x.job in Run(v, steps).jobs && Run(v, steps).jobs[x.job] == v.jobs[x.job])
  {
    var v := Next(s, FailJob(x, random));
    hide RetryDelay;
    if x.seen < s.jobs[x.job].maxAttempts && Run(v, steps).now < v.jobs[x.job].availableAt {
      WaitsItsTurn(v, steps, x.job);
    }
    hide Run;
  }

  /** Giving a job back takes the lock away from everybody. */
  lemma ReleasedIsNotOwned(jobs: Jobs, id: Id, worker: Worker, other: Worker, delay: int, patience: int, seen: nat, max: nat,
                           random: real, now: Time)
    ensures !Owned(Complete(jobs, id, worker), id, worker) && !Owned(Defer(jobs, id, worker, delay, now), id, worker)
    ensures !Owned(Fail(jobs, id, worker, seen, max, random, now), id, worker)
    ensures id in jobs && Stale(jobs[id], now, patience) ==> !Owned(ReleaseStale(jobs, now, patience), id, other)
  {
  }

  // ---------------------------------------------------------------- how often a failure re-queues

  /** An execution saw the attempts of its claim, and no other execution of the job saw the same. */
  ghost predicate Counted(s: State) {
    && (forall x | x in s.live :: x.job in s.jobs && 1 <= x.seen <= s.jobs[x.job].attempts)
    && (forall x, y | x in s.live && y in s.live && x.job == y.job && x.seen == y.seen :: x == y)
    && (forall x | x in s.requeues :: x.job in s.jobs && 1 <= x.seen <= s.jobs[x.job].attempts
                                      && x.seen < s.jobs[x.job].maxAttempts)
    && (forall x, y | x in s.requeues && y in s.live && x.job == y.job :: x.seen != y.seen)
    && (forall i, j | 0 <= i < j < |s.requeues| && s.requeues[i].job == s.requeues[j].job ::
          s.requeues[i].seen != s.requeues[j].seen)
  }

  lemma ClaimsKeepCount(s: State, worker: Worker, chosen: set<Id>, queues: set<Queue>, lease: int)
    requires Counted(s)
    ensures Counted(Next(s, ClaimJobs(worker, chosen, queues, lease)))
  {
  }

  lemma FailuresKeepCount(s: State, x: Execution, random: real)
    requires Counted(s)
    ensures Counted(Next(s, FailJob(x, random)))
  {
    var v := Next(s, FailJob(x, random));
    FailingKeepsAttempts(s.jobs, x, if x.job in s.jobs then s.jobs[x.job].maxAttempts else 0, random, s.now);
    hide Fail, Owned;
  }

  lemma FailingKeepsAttempts(jobs: Jobs, x: Execution, max: nat, random: real, now: Time)
    ensures var after := Fail(jobs, x.job, x.worker, x.seen, max, random, now);
            && after.Keys == jobs.Keys
            && forall id | id in jobs :: after[id].attempts == jobs[id].attempts && after[id].maxAttempts == jobs[id].maxAttempts
  {
    hide RetryDelay;
  }

  lemma OthersKeepCount(s: State, step: Step)
    requires Counted(s) && RowsFit(s.jobs) && !step.ClaimJobs? && !step.FailJob?
    ensures Counted(Next(s, step))
  {
    var v := Next(s, step);
    NextSteps(s, step);
    hide RowStep, RowsFit;
    assert v.live <= s.live && v.requeues == s.requeues;
    hide Next;
  }

  lemma {:induction false} RunKeepsCount(steps: seq<Step>)
    ensures Counted(Run(START, steps)) && RowsFit(Run(START, steps).jobs)
  {
    hide Next, Counted, RowsFit;
    if steps == [] {
      NothingCountedYet();
    } else {
      var front, last := steps[..|steps| - 1], steps[|steps| - 1];
      RunKeepsCount(front);
      var s := Run(START, front);
      if last.ClaimJobs? {
        ClaimsKeepCount(s, last.worker, last.chosen, last.queues, last.lease);
      } else if last.FailJob? {
        FailuresKeepCount(s, last.x, last.random);
      } else {
        OthersKeepCount(s, last);
      }
      NothingCountedYet();
      RunKeepsRows(START, steps);
    }
  }

  lemma NothingCountedYet()
    ensures Counted(START) && RowsFit(START.jobs)
  {
  }

  /** The failures of a job that put it back into the queue. */
  function RequeuesOf(requeues: seq<Execution>, id: Id): seq<nat> {
    if requeues == [] then []
    else
      RequeuesOf(requeues[..|requeues| - 1], id)
      + (if requeues[|requeues| - 1].job == id then [requeues[|requeues| - 1].seen] else [])
  }

  lemma {:induction false} RequeueIsListed(requeues: seq<Execution>, id: Id, seen: nat) returns (i: nat)
    requires seen in RequeuesOf(requeues, id)
    ensures i < |requeues| && requeues[i].job == id && requeues[i].seen == seen
  {
    i := |requeues| - 1;
    if requeues[i].job != id || requeues[i].seen != seen {
      i := RequeueIsListed(requeues[..i], id, seen);
    }
  }

  /** Different numbers, all of them at least one and below the maximum. */
  predicate DistinctBelow(seen: seq<nat>, max: nat) {
    && (forall i | 0 <= i < |seen| :: 1 <= seen[i] < max)
    && (forall i, j | 0 <= i < j < |seen| :: seen[i] != seen[j])
  }

  lemma {:induction false} RequeuesAreDistinct(requeues: seq<Execution>, id: Id, max: nat)
    requires forall i | 0 <= i < |requeues| && requeues[i].job == id :: 1 <= requeues[i].seen < max
    requires forall i, j | 0 <= i < j < |requeues| && requeues[i].job == requeues[j].job ::
               requeues[i].seen != requeues[j].seen
    ensures DistinctBelow(RequeuesOf(requeues, id), max)
  {
    if requeues != [] {
      var front, last := requeues[..|requeues| - 1], requeues[|requeues| - 1];
      RequeuesAreDistinct(front, id, max);
      var seen := RequeuesOf(front, id);
      forall k | 0 <= k < |seen| && last.job == id ensures seen[k] != last.seen {
        var i := RequeueIsListed(front, id, seen[k]);
        assert requeues[i].job == last.job && requeues[i].seen == seen[k];
      }
    }
  }

  lemma {:induction false} DistinctFit(seen: seq<nat>, max: nat)
    requires DistinctBelow(seen, max)
    ensures |seen| <= if max == 0 then 0 else max - 1
    decreases max
  {
    assert seen != [] ==> 1 <= seen[0] < max;
    if max > 1 {
      if i :| 0 <= i < |seen| && seen[i] == max - 1 {
        DistinctFit(seen[..i] + seen[i + 1..], max - 1);
      } else {
        DistinctFit(seen, max - 1);
      }
    }
  }

  /** Failing puts a job back into the queue at most once less than its attempts allow, however often it was deferred. */
  lemma {:induction false} FailureRequeuesAreBounded(steps: seq<Step>, id: Id)
    ensures var s := Run(START, steps);
            id in s.jobs ==>
              |RequeuesOf(s.requeues, id)| <= if s.jobs[id].maxAttempts == 0 then 0 else s.jobs[id].maxAttempts - 1
  {
    RunKeepsCount(steps);
    hide Run, RowsFit, RequeuesOf;
    var s := Run(START, steps);
    if id in s.jobs {
      assert forall i | 0 <= i < |s.requeues| :: s.requeues[i] in s.requeues;
      RequeuesAreDistinct(s.requeues, id, s.jobs[id].maxAttempts);
      DistinctFit(RequeuesOf(s.requeues, id), s.jobs[id].maxAttempts);
    }
  }
}
