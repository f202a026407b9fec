/** The table of jobs, updated in place by the operations of the queue service. */
module JobStore {
  import opened Results
  import opened JobQueue

  datatype Failure = LeaseLost | NotFound | NotReplayable | UniqueViolation

  class JobTable {
    var jobs: Jobs

    ghost predicate Valid()
      reads this
    {
      RowsFit(jobs)
    }

    constructor ()
      ensures Valid() && jobs == map[]
    {
      jobs := map[];
    }

    /** The live jobs that hold the key, of which there is at most one while the table is valid. */
    function LiveHolders(key: Option<string>): set<Id>
      reads this
    {
      set id | id in jobs && key.Some? && jobs[id].dedupeKey == key && jobs[id].status in LIVE
    }

    /** A key that a live job holds brings back that job; any other gets a new job of the given, unused id. */
    method EnqueueJob(id: Id, kind: Kind, payload: string, key: Option<string>, maxAttempts: nat, availableAt: Time, now: Time)
      returns (queued: Result<Id, Failure>)
      requires id !in jobs
      modifies this
      ensures old(Valid()) ==> Valid()
      ensures key != Some("") && old(LiveHolders(key)) != {} ==>
                queued.Ok? && queued.value in old(LiveHolders(key)) && jobs == old(jobs)
      ensures !old(KeyHeld(jobs, key)) ==>
                queued == Ok(id) && jobs == old(jobs)[id := NewJob(kind, payload, key, maxAttempts, availableAt, now)]
      ensures old(Valid()) && queued.Ok? && key.Some? ==> LiveHolders(key) == {queued.value}
      ensures queued.Err? ==> key == Some("") && old(KeyHeld(jobs, key)) && jobs == old(jobs)
    {
      if key != None && key != Some("") {
        var existing := LiveHolders(key);
        if existing != {} {
          var found :| found in existing;
          return Ok(found);
        }
      }
      if KeyHeld(jobs, key) {
        if key == Some("") {
          return Err(UniqueViolation);
        }
        var done :| done in jobs && jobs[done].dedupeKey == key;
        jobs := jobs[done := jobs[done].(dedupeKey := None)];
      }
      jobs := jobs[id := NewJob(kind, payload, key, maxAttempts, availableAt, now)];
      queued := Ok(id);
    }

    /** Claims the oldest jobs that nobody else is claiming at this moment. */
    method ClaimAvailableJobs(worker: Worker, queues: set<Queue>, limit: int, lease: int, busy: set<Id>, now: Time)
      returns (claimed: set<Id>)
      requires Valid()
      modifies this
      ensures Valid()
      ensures Oldest(old(jobs), claimed, Candidates(old(jobs), queues, busy, now), Clamp(limit, 1, 100))
      ensures jobs == Claim(old(jobs), claimed, worker, lease, now)
      ensures forall id | id in claimed :: Owned(jobs, id, worker) && jobs[id].attempts == old(jobs)[id].attempts + 1
    {
      claimed := ChooseOldest(jobs, Candidates(jobs, queues, busy, now), Clamp(limit, 1, 100));
      ClaimingKeeps(jobs, claimed, worker, lease, now);
      jobs := Claim(jobs, claimed, worker, lease, now);
    }

    method CompleteJob(id: Id, worker: Worker) returns (thrown: Option<Failure>)
      requires Valid()
      modifies this
      ensures Valid() && jobs == Complete(old(jobs), id, worker)
      ensures thrown == None <==> old(Owned(jobs, id, worker))
    {
      if id !in jobs || jobs[id].status != Running || jobs[id].lock.value.worker != worker {
        return Some(LeaseLost);
      }
      jobs := jobs[id := jobs[id].(status := Completed, dedupeKey := None, lock := None, leaseExpiresAt := None)];
      thrown := None;
    }

    method DeferJob(id: Id, worker: Worker, delay: int, now: Time) returns (thrown: Option<Failure>)
      requires Valid()
      modifies this
      ensures Valid() && jobs == Defer(old(jobs), id, worker, delay, now)
      ensures thrown == None <==> old(Owned(jobs, id, worker))
    {
      if id !in jobs || jobs[id].status != Running || jobs[id].lock.value.worker != worker {
        return Some(LeaseLost);
      }
      var bounded := delay;
      if bounded < 1_000 {
        bounded := 1_000;
      } else if bounded > 900_000 {
        bounded := 900_000;
      }
      jobs := jobs[id := jobs[id].(status := Retry, lock := None, leaseExpiresAt := None, availableAt := now + bounded)];
      thrown := None;
    }

    method FailJob(id: Id, worker: Worker, seen: nat, maxAttempts: nat, random: real, now: Time)
      returns (thrown: Option<Failure>, deadLettered: bool)
      requires Valid()
      modifies this
      ensures Valid() && jobs == Fail(old(jobs), id, worker, seen, maxAttempts, random, now)
      ensures thrown == None <==> old(Owned(jobs, id, worker))
      ensures thrown == None ==> (deadLettered <==> jobs[id].status == DeadLetter)
    {
      deadLettered := seen >= maxAttempts;
      if id !in jobs || jobs[id].status != Running || jobs[id].lock.value.worker != worker {
        return Some(LeaseLost), deadLettered;
      }
      var job := jobs[id].(lock := None, leaseExpiresAt := None);
      if deadLettered {
        job := job.(status := DeadLetter, dedupeKey := None);
      } else {
        job := job.(status := Retry, availableAt := now + RetryDelay(seen, random));
      }
      jobs := jobs[id := job];
      thrown := None;
    }

    method RenewJobLease(id: Id, worker: Worker, lease: int, now: Time) returns (thrown: Option<Failure>)
      requires Valid()
      modifies this
      ensures Valid() && jobs == Renew(old(jobs), id, worker, lease, now)
      ensures thrown == None <==> old(Owned(jobs, id, worker))
    {
      if id !in jobs || jobs[id].status != Running || jobs[id].lock.value.worker != worker {
        return Some(LeaseLost);
      }
      jobs := jobs[id := jobs[id].(leaseExpiresAt := Some(now + lease))];
      thrown := None;
    }

    method ReplayJob(id: Id, copy: Id, now: Time) returns (thrown: Option<Failure>)
      requires Valid() && copy !in jobs
      modifies this
      ensures Valid() && jobs == Replay(old(jobs), id, copy, now)
      ensures thrown == None <==> id in old(jobs) && old(jobs)[id].status in FINISHED
    {
      if id !in jobs {
        return Some(NotFound);
      }
      if jobs[id].status !in FINISHED {
        return Some(NotReplayable);
      }
      jobs := jobs[copy := Job(jobs[id].kind, jobs[id].payload, Queued, None, 0, jobs[id].maxAttempts, now, now, None, None)];
      thrown := None;
    }

    method ReleaseStaleLocks(now: Time, patience: int)
      requires Valid()
      modifies this
      ensures Valid() && jobs == ReleaseStale(old(jobs), now, patience)
    {
      var stale := set id | id in jobs && jobs[id].status == Running
                            && ((jobs[id].leaseExpiresAt.Some? && jobs[id].leaseExpiresAt.value < now)
                                || (jobs[id].leaseExpiresAt == None && jobs[id].lock.value.at < now - patience));
      jobs := map id | id in jobs ::
        if id in stale then jobs[id].(status := Retry, lock := None, leaseExpiresAt := None, availableAt := now)
        else jobs[id];
    }
  }

  /** The candidates in the order of the query, up to the limit. */
  method ChooseOldest(jobs: Jobs, candidates: set<Id>, limit: nat) returns (chosen: set<Id>)
    requires candidates <= jobs.Keys
    ensures Oldest(jobs, chosen, candidates, limit)
  {
    chosen := {};
    var rest := candidates;
    while rest != {} && |chosen| < limit
      invariant chosen <= candidates && rest == candidates - chosen
      invariant |chosen| <= limit && |chosen| + |rest| == |candidates|
      invariant forall c, d | c in chosen && d in candidates - chosen :: NotAfter(jobs[c], jobs[d])
      decreases |rest|
    {
      var next := OldestOf(jobs, rest);
      chosen := chosen + {next};
      rest := rest - {next};
    }
  }

  method OldestOf(jobs: Jobs, ids: set<Id>) returns (first: Id)
    requires ids <= jobs.Keys && ids != {}
    ensures first in ids && forall id | id in ids :: NotAfter(jobs[first], jobs[id])
  {
    first :| first in ids;
    var rest := ids - {first};
    while rest != {}
      invariant rest <= ids && first in ids
      invariant forall id | id in ids - rest :: NotAfter(jobs[first], jobs[id])
      decreases |rest|
    {
      var next :| next in rest;
      rest := rest - {next};
      if NotAfter(jobs[next], jobs[first]) {
        first := next;
      }
    }
  }

  lemma ClaimingKeeps(jobs: Jobs, chosen: set<Id>, worker: Worker, lease: int, now: Time)
    requires RowsFit(jobs) && forall id | id in chosen :: id in jobs && jobs[id].status in {Queued, Retry}
    ensures RowsFit(Claim(jobs, chosen, worker, lease, now))
    ensures forall id | id in chosen :: Owned(Claim(jobs, chosen, worker, lease, now), id, worker)
  {
  }
}
