/**
 One idempotency key of one app: its row, the clock, and any number of
 requests that use the key at the same time, die at any moment, or are slow.
 */
module Idempotency {
  import opened Results

  type Id = nat
  type Time = nat
  type Hash = nat
  type Response = nat

  /** A pending row has no response yet. */
  datatype Row = Row(hash: Hash, response: Option<Response>, leaseUntil: Time, expiresAt: Time)

  /** How long a reservation protects its request, and how long a stored response is kept. */
  datatype Config = Config(lease: Time, retention: Time)

  // ---------------------------------------------------------------- what the row operations do

  predicate Stale(row: Row, now: Time) {
    row.expiresAt <= now || (row.response.None? && row.leaseUntil <= now)
  }

  function Swept(row: Option<Row>, now: Time): Option<Row> {
    if row.Some? && Stale(row.value, now) then None else row
  }

  function Fresh(config: Config, hash: Hash, now: Time): Row {
    Row(hash, None, now + config.lease, now + config.retention)
  }

  /** Completing does not ask who reserved the row. */
  function Completed(config: Config, row: Row, hash: Hash, response: Response, now: Time): Row {
    row.(hash := hash, response := Some(response), expiresAt := now + config.retention)
  }

  function Cleared(row: Option<Row>, hash: Hash): Option<Row> {
    if row.Some? && row.value.hash == hash && row.value.response.None? then None else row
  }

  datatype Verdict = Free | Replay(response: Response) | Mismatch | InProgress

  function Judge(row: Option<Row>, hash: Hash): Verdict {
    match row
    case None => Free
    case Some(found) =>
      if found.hash != hash then Mismatch
      else if found.response.None? then InProgress
      else Replay(found.response.value)
  }

  // ---------------------------------------------------------------- requests

  /**
   Where a request is: `held` is the end of the reservation it made, `racing`
   says that it looks the key up again after a unique-constraint error.
   */
  datatype Phase =
    | Looking(held: Option<Time>, racing: bool)
    | Sweeping(held: Option<Time>, racing: bool)
    | LookingAgain(held: Option<Time>, racing: bool)
    | Reserving
    | Running(until: Time)
    | Clearing(until: Time)
    | Done

  datatype Request = Request(hash: Hash, phase: Phase)

  /** A body that committed, and when. */
  datatype Commit = Commit(at: Time, hash: Hash, response: Response)

  /** A result a request returned, and how many bodies had committed by then. */
  datatype Answer = Answer(hash: Hash, response: Response, commits: nat)

  datatype State = State(now: Time, row: Option<Row>, requests: map<Id, Request>, commits: seq<Commit>, answers: seq<Answer>)

  const START: State := State(0, None, map[], [], [])

  datatype Step =
    | Tick(time: Time)
    | Arrive(r: Id, hash: Hash)
    | Look(r: Id)
    | Sweep(r: Id)
    | LookAgain(r: Id)
    | Reserve(r: Id)
    | RunBody(r: Id, response: Response)
    | BodyFails(r: Id, unique: bool)
    | Clear(r: Id)
    | Die(r: Id)
    | Cleanup

  function Go(s: State, r: Id, phase: Phase): State
    requires r in s.requests
  {
    s.(requests := s.requests[r := s.requests[r].(phase := phase)])
  }

  function Return(s: State, r: Id, response: Response): State
    requires r in s.requests
  {
    Go(s, r, Done).(answers := s.answers + [Answer(s.requests[r].hash, response, |s.commits|)])
  }

  /** A lookup that found a conflict throws; even a request that raced then leaves its reservation. */
  function Continue(s: State, r: Id, held: Option<Time>, racing: bool): State
    requires r in s.requests
  {
    match Judge(s.row, s.requests[r].hash)
    case Replay(response) => Return(s, r, response)
    case Free => Go(s, r, if !racing then Reserving else if held.Some? then Clearing(held.value) else Done)
    case _ => Go(s, r, Done)
  }

  function Min(a: nat, b: nat): nat {
    if a < b then a else b
  }

  function Next(config: Config, s: State, step: Step): State {
    match step
    case Tick(time) => s.(now := s.now + time)
    case Arrive(r, hash) =>
      if r in s.requests then s else s.(requests := s.requests[r := Request(hash, Looking(None, false))])
    case Look(r) =>
      if r in s.requests && s.requests[r].phase.Looking? then
        var phase := s.requests[r].phase;
        if s.row.Some? && Stale(s.row.value, s.now) then Go(s, r, Sweeping(phase.held, phase.racing))
        else Continue(s, r, phase.held, phase.racing)
      else s
    case Sweep(r) =>
      if r in s.requests && s.requests[r].phase.Sweeping? then
        Go(s, r, LookingAgain(s.requests[r].phase.held, s.requests[r].phase.racing)).(row := Swept(s.row, s.now))
      else s
    case LookAgain(r) =>
      if r in s.requests && s.requests[r].phase.LookingAgain?
      then Continue(s, r, s.requests[r].phase.held, s.requests[r].phase.racing)
      else s
    case Reserve(r) =>
      if r in s.requests && s.requests[r].phase.Reserving? then
        if s.row.None? then
          Go(s, r, Running(s.now + Min(config.lease, config.retention)))
            .(row := Some(Fresh(config, s.requests[r].hash, s.now)))
        else Go(s, r, Looking(None, true))
      else s
    case RunBody(r, response) =>
      if r in s.requests && s.requests[r].phase.Running? then
        var hash := s.requests[r].hash;
        // The row to complete is gone: the update throws and the body is rolled back.
        if s.row.None? then Go(s, r, Clearing(s.requests[r].phase.until))
        else
          var committed := s.(row := Some(Completed(config, s.row.value, hash, response, s.now)),
                              commits := s.commits + [Commit(s.now, hash, response)]);
          Return(committed, r, response)
      else s
    case BodyFails(r, unique) =>
      if r in s.requests && s.requests[r].phase.Running? then
        Go(s, r, if unique then Looking(Some(s.requests[r].phase.until), true) else Clearing(s.requests[r].phase.until))
      else s
    case Clear(r) =>
      if r in s.requests && s.requests[r].phase.Clearing?
      then Go(s, r, Done).(row := Cleared(s.row, s.requests[r].hash))
      else s
    case Die(r) => s.(requests := s.requests - {r})
    case Cleanup => s.(row := Swept(s.row, s.now))
  }

  function Run(config: Config, steps: seq<Step>): State {
    if steps == [] then START else Next(config, Run(config, steps[..|steps| - 1]), steps[|steps| - 1])
  }

  // ---------------------------------------------------------------- one request alone

  function Arrived(config: Config, s: State, r: Id, hash: Hash): State {
    var looking := Next(config, Next(config, s, Arrive(r, hash)), Look(r));
    if r in looking.requests && looking.requests[r].phase.Sweeping?
    then Next(config, Next(config, looking, Sweep(r)), LookAgain(r)) else looking
  }

  /** The key has no row, or one that is expired or pending beyond its lease. */
  predicate KeyIsFree(s: State) {
    match s.row
    case None => true
    case Some(row) => row.expiresAt <= s.now || (row.response == None && row.leaseUntil <= s.now)
  }

  /** A request that finds the key free reserves it, and its body commits, answers and is stored. */
  lemma FreeKeyRuns(config: Config, s: State, r: Id, hash: Hash, response: Response)
    requires r !in s.requests && KeyIsFree(s)
    ensures var reserved := Next(config, Arrived(config, s, r, hash), Reserve(r));
            var done := Next(config, reserved, RunBody(r, response));
            && reserved.row == Some(Row(hash, None, s.now + config.lease, s.now + config.retention))
            && done.row == Some(Row(hash, Some(response), s.now + config.lease, s.now + config.retention))
            && done.commits == s.commits + [Commit(s.now, hash, response)]
            && done.answers == s.answers + [Answer(hash, response, |s.commits| + 1)]
            && r in done.requests && done.requests[r] == Request(hash, Done)
  {
    FreeKeyArrives(config, s, r, hash);
    hide Arrived;
  }

  lemma FreeKeyArrives(config: Config, s: State, r: Id, hash: Hash)
    requires r !in s.requests && KeyIsFree(s)
    ensures Arrived(config, s, r, hash) == s.(row := None, requests := s.requests[r := Request(hash, Reserving)])
  {
    var looking := Next(config, Next(config, s, Arrive(r, hash)), Look(r));
    assert looking.requests == s.requests[r := looking.requests[r]];
    if s.row.Some? {
      assert looking == s.(requests := s.requests[r := Request(hash, Sweeping(None, false))]);
      var swept := Next(config, looking, Sweep(r));
      assert swept == s.(row := None, requests := s.requests[r := Request(hash, LookingAgain(None, false))]);
    }
  }

  /** A request that finds a row is answered with its response, if it is the same request and there is one, or not at all. */
  lemma TakenKeyAnswers(config: Config, s: State, r: Id, hash: Hash)
    requires r !in s.requests && !KeyIsFree(s)
    ensures Arrived(config, s, r, hash)
            == s.(requests := s.requests[r := Request(hash, Done)],
                  answers := if s.row.value.hash == hash && s.row.value.response.Some?
                             then s.answers + [Answer(hash, s.row.value.response.value, |s.commits|)] else s.answers)
  {
    assert s.requests[r := Request(hash, Looking(None, false))][r := Request(hash, Done)] == s.requests[r := Request(hash, Done)];
  }

  /** A body that fails gives the key up, and the next request finds it free. */
  lemma FailedBodyFreesTheKey(config: Config, s: State, r: Id)
    requires r in s.requests && s.requests[r].phase.Running?
    requires s.row.Some? && s.row.value.hash == s.requests[r].hash && s.row.value.response == None
    ensures var cleared := Next(config, Next(config, s, BodyFails(r, false)), Clear(r));
            cleared.row == None && KeyIsFree(cleared) && cleared.commits == s.commits && cleared.answers == s.answers
  {
  }

  /** Who loses the race for a key looks it up again, and is answered like anybody who finds it taken. */
  lemma LoserLooksAgain(config: Config, s: State, r: Id)
    requires r in s.requests && s.requests[r].phase == Reserving && !KeyIsFree(s)
    ensures var hash, again := s.requests[r].hash, Next(config, Next(config, s, Reserve(r)), Look(r));
            again == s.(requests := s.requests[r := Request(hash, Done)],
                        answers := if s.row.value.hash == hash && s.row.value.response.Some?
                                   then s.answers + [Answer(hash, s.row.value.response.value, |s.commits|)] else s.answers)
  {
    var hash := s.requests[r].hash;
    assert s.requests[r := Request(hash, Looking(None, true))][r := Request(hash, Done)] == s.requests[r := Request(hash, Done)];
  }

  /** A body whose row is gone by the time it completes does not commit. */
  lemma LateBodyRollsBack(config: Config, s: State, r: Id, response: Response)
    requires r in s.requests && s.requests[r].phase.Running? && s.row == None
    ensures var done := Next(config, Next(config, s, RunBody(r, response)), Clear(r));
            done == s.(requests := s.requests[r := Request(s.requests[r].hash, Done)])
  {
    var late := Next(config, s, RunBody(r, response));
    assert late.requests[r := Request(s.requests[r].hash, Done)] == s.requests[r := Request(s.requests[r].hash, Done)];
  }

  /**
   A body that violates a unique constraint is taken for a lost race: it finds
   its own reservation in progress and leaves it; only if that is gone, it
   gives up its key.
   */
  lemma OwnReservationIsLeft(config: Config, s: State, r: Id)
    requires r in s.requests && s.requests[r].phase.Running?
    requires s.row.Some? ==> s.row.value.hash == s.requests[r].hash && s.row.value.response == None && s.now < s.row.value.leaseUntil
                             && s.now < s.row.value.expiresAt
    ensures var again := Next(config, Next(config, s, BodyFails(r, true)), Look(r));
            again == s.(requests := s.requests[r := Request(s.requests[r].hash,
                                                            if s.row.Some? then Done else Clearing(s.requests[r].phase.until))])
  {
    var racing := Next(config, s, BodyFails(r, true));
    forall phase ensures racing.requests[r := Request(s.requests[r].hash, phase)]
                         == s.requests[r := Request(s.requests[r].hash, phase)]
    {
    }
  }

  /** The sweep takes the row exactly if the key is free. */
  lemma SweepFreesTheKey(config: Config, s: State)
    ensures Next(config, s, Cleanup) == if KeyIsFree(s) then s.(row := None) else s
  {
  }

  // ---------------------------------------------------------------- the stored response

  predicate Stores(config: Config, row: Row, commit: Commit) {
    row.response == Some(commit.response) && row.hash == commit.hash && row.expiresAt == commit.at + config.retention
  }

  /** A completed row stores the last commit; a commit that has not expired is still stored. */
  predicate Stored(config: Config, s: State) {
    && (s.row.Some? && s.row.value.response.Some? ==>
          s.commits != [] && Stores(config, s.row.value, s.commits[|s.commits| - 1]))
    && (s.commits != [] ==>
          var last := s.commits[|s.commits| - 1];
          && last.at <= s.now
          && (s.now < last.at + config.retention ==>
                s.row.Some? && Stores(config, s.row.value, last)))
  }

  lemma NextKeepsStored(config: Config, s: State, step: Step)
    requires Stored(config, s)
    ensures Stored(config, Next(config, s, step))
  {
  }

  lemma {:induction false} RunKeepsStored(config: Config, steps: seq<Step>)
    ensures Stored(config, Run(config, steps))
  {
    hide Next, Stored;
    if steps != [] {
      RunKeepsStored(config, steps[..|steps| - 1]);
      NextKeepsStored(config, Run(config, steps[..|steps| - 1]), steps[|steps| - 1]);
    } else {
      StartIsStored(config);
    }
  }

  lemma StartIsStored(config: Config)
    ensures Stored(config, START)
  {
  }

  /** Every answer repeats the newest commit of its moment, which was made for the same request hash. */
  predicate Answered(s: State) {
    forall i | 0 <= i < |s.answers| ::
      var answer := s.answers[i];
      && 0 < answer.commits <= |s.commits|
      && s.commits[answer.commits - 1].hash == answer.hash
      && s.commits[answer.commits - 1].response == answer.response
  }

  lemma NextKeepsAnswered(config: Config, s: State, step: Step)
    requires Stored(config, s) && Answered(s)
    ensures Answered(Next(config, s, step))
  {
  }

  /** Nobody is answered with the result of another request body. */
  lemma {:induction false} AnswersRepeatTheirCommit(config: Config, steps: seq<Step>)
    ensures Answered(Run(config, steps))
  {
    hide Next, Stored, Answered;
    if steps != [] {
      RunKeepsStored(config, steps[..|steps| - 1]);
      AnswersRepeatTheirCommit(config, steps[..|steps| - 1]);
      NextKeepsAnswered(config, Run(config, steps[..|steps| - 1]), steps[|steps| - 1]);
    } else {
      NobodyIsAnsweredYet();
    }
  }

  lemma NobodyIsAnsweredYet()
    ensures Answered(START)
  {
  }

  // ---------------------------------------------------------------- at most once

  /** Before a stored response expires no other body commits. */
  predicate Spaced(config: Config, commits: seq<Commit>) {
    forall i, j | 0 <= i < j < |commits| :: commits[i].at + config.retention <= commits[j].at
  }

  /** A slow body that commits over a stored response that has not expired. */
  predicate Clobbers(s: State, step: Step) {
    && step.RunBody? && step.r in s.requests && s.requests[step.r].phase.Running?
    && s.row.Some? && s.row.value.response.Some? && s.now < s.row.value.expiresAt
  }

  lemma CommitsGrow(config: Config, s: State, step: Step)
    requires Stored(config, s) && Spaced(config, s.commits)
    ensures Spaced(config, Next(config, s, step).commits) <==> !Clobbers(s, step)
  {
    var after := Next(config, s, step).commits;
    assert after == s.commits || after == s.commits + [after[|s.commits|]];
    if s.commits != [] && after != s.commits {
      assert after[|s.commits| - 1] == s.commits[|s.commits| - 1];
      assert after[|s.commits|].at == s.now;
    }
  }

  lemma CommitsStay(config: Config, s: State, step: Step)
    requires Spaced(config, Next(config, s, step).commits)
    ensures Spaced(config, s.commits)
  {
    var after := Next(config, s, step).commits;
    assert forall i | 0 <= i < |s.commits| :: after[i] == s.commits[i];
  }

  /** At most once per retention period, exactly when no body overwrites a stored response. */
  lemma {:induction false} OnceUnlessClobbered(config: Config, steps: seq<Step>)
    ensures Spaced(config, Run(config, steps).commits)
            <==> forall i | 0 <= i < |steps| :: !Clobbers(Run(config, steps[..i]), steps[i])
  {
    hide Next, Spaced, Clobbers, Stored;
    if steps == [] {
      NothingIsSpaced(config);
    } else {
      var front, last := steps[..|steps| - 1], steps[|steps| - 1];
      var before := Run(config, front);
      OnceUnlessClobbered(config, front);
      RunKeepsStored(config, front);
      assert forall i | 0 <= i < |front| :: front[..i] == steps[..i];
      if Spaced(config, before.commits) {
        CommitsGrow(config, before, last);
      } else if Spaced(config, Next(config, before, last).commits) {
        CommitsStay(config, before, last);
      }
    }
  }

  lemma NothingIsSpaced(config: Config)
    ensures Spaced(config, START.commits)
  {
  }

  // ---------------------------------------------------------------- requests that keep to their lease

  /** The reservation a request counts on. */
  function HeldUntil(phase: Phase): Option<Time> {
    match phase
    case Running(until) => Some(until)
    case Clearing(until) => Some(until)
    case Looking(held, _) => held
    case Sweeping(held, _) => held
    case LookingAgain(held, _) => held
    case _ => None
  }

  predicate Live(s: State, r: Id) {
    r in s.requests && HeldUntil(s.requests[r].phase).Some? && s.now < HeldUntil(s.requests[r].phase).value
  }

  /** A request writes under its reservation only while it lasts. */
  predicate Timely(s: State, step: Step) {
    && (step.RunBody? && step.r in s.requests && s.requests[step.r].phase.Running? ==> Live(s, step.r))
    && (step.Clear? && step.r in s.requests && s.requests[step.r].phase.Clearing? ==> Live(s, step.r))
  }

  /** The row is pending, and reserved for this request. */
  predicate Protects(row: Option<Row>, request: Request) {
    && row.Some? && row.value.response.None? && row.value.hash == request.hash
    && HeldUntil(request.phase) == Some(Min(row.value.leaseUntil, row.value.expiresAt))
  }

  /** Whoever still holds a reservation is alone, and the pending row is its own. */
  ghost predicate Exclusive(s: State) {
    && (forall r | r in s.requests && Live(s, r) :: Protects(s.row, s.requests[r]))
    && (forall r, q | Live(s, r) && Live(s, q) :: r == q)
  }

  /** A reservation is only ever made by reserving. */
  lemma LiveBefore(config: Config, s: State, step: Step, r: Id)
    requires Live(Next(config, s, step), r) && !(step == Reserve(r) && s.row.None?)
    ensures Live(s, r)
    ensures var v := Next(config, s, step);
            v.requests[r].hash == s.requests[r].hash && HeldUntil(v.requests[r].phase) == HeldUntil(s.requests[r].phase)
  {
  }

  lemma RowOfLiveStays(config: Config, s: State, step: Step, r: Id)
    requires Exclusive(s) && Timely(s, step) && Live(s, r) && Live(Next(config, s, step), r)
    ensures Next(config, s, step).row == s.row
  {
    assert s.row.Some? && !Stale(s.row.value, s.now);
  }

  lemma ReserverIsAlone(config: Config, s: State, r: Id, q: Id)
    requires Exclusive(s) && s.row.None? && Live(Next(config, s, Reserve(r)), q)
    ensures q == r && r in Next(config, s, Reserve(r)).requests
    ensures Protects(Next(config, s, Reserve(r)).row, Next(config, s, Reserve(r)).requests[r])
  {
    assert q != r ==> Live(s, q);
  }

  lemma NextKeepsExclusive(config: Config, s: State, step: Step)
    requires Exclusive(s) && Timely(s, step)
    ensures Exclusive(Next(config, s, step))
  {
    var v := Next(config, s, step);
    forall r | r in v.requests && Live(v, r) ensures Protects(v.row, v.requests[r]) {
      hide Next, Timely;
      if step == Reserve(r) && s.row.None? {
        ReserverIsAlone(config, s, r, r);
      } else {
        LiveBefore(config, s, step, r);
        RowOfLiveStays(config, s, step, r);
      }
    }
    forall r, q | Live(v, r) && Live(v, q) ensures r == q {
      hide Next, Live, Timely, Protects;
      if step.Reserve? && s.row.None? {
        ReserverIsAlone(config, s, step.r, r);
        ReserverIsAlone(config, s, step.r, q);
      } else {
        LiveBefore(config, s, step, r);
        LiveBefore(config, s, step, q);
      }
    }
  }

  ghost predicate KeepsToItsLease(config: Config, steps: seq<Step>) {
    forall i | 0 <= i < |steps| :: Timely(Run(config, steps[..i]), steps[i])
  }

  lemma {:induction false} RunKeepsExclusive(config: Config, steps: seq<Step>)
    requires KeepsToItsLease(config, steps)
    ensures Exclusive(Run(config, steps))
  {
    hide Next, Exclusive, Timely;
    if steps != [] {
      var front, last := steps[..|steps| - 1], steps[|steps| - 1];
      assert forall i | 0 <= i < |front| :: front[..i] == steps[..i] && front[i] == steps[i];
      RunKeepsExclusive(config, front);
      assert Timely(Run(config, steps[..|front|]), last);
      NextKeepsExclusive(config, Run(config, front), last);
    } else {
      NobodyHoldsYet();
    }
  }

  lemma NobodyHoldsYet()
    ensures Exclusive(START)
  {
  }

  lemma TimelyDoesNotClobber(s: State, step: Step)
    requires Exclusive(s) && Timely(s, step)
    ensures !Clobbers(s, step)
  {
  }

  /**
   While no request outlives its lease, a body commits at most once before its
   key expires, and every request that returns gets that commit's result.
   */
  lemma {:induction false} ExactlyOnce(config: Config, steps: seq<Step>)
    requires KeepsToItsLease(config, steps)
    ensures Spaced(config, Run(config, steps).commits) && Answered(Run(config, steps))
  {
    hide Timely, Run;
    forall i | 0 <= i < |steps| ensures !Clobbers(Run(config, steps[..i]), steps[i]) {
      assert forall k | 0 <= k < i :: steps[..i][..k] == steps[..k] && steps[..i][k] == steps[k];
      RunKeepsExclusive(config, steps[..i]);
      assert Timely(Run(config, steps[..i]), steps[i]);
      hide Exclusive, Clobbers;
      TimelyDoesNotClobber(Run(config, steps[..i]), steps[i]);
    }
    OnceUnlessClobbered(config, steps);
    AnswersRepeatTheirCommit(config, steps);
  }

  // ---------------------------------------------------------------- a request that outlives its lease

  ghost predicate Reachable(config: Config, s: State) {
    exists steps :: Run(config, steps) == s
  }

  lemma NextIsReachable(config: Config, s: State, step: Step)
    requires Reachable(config, s)
    ensures Reachable(config, Next(config, s, step))
  {
    hide Next;
    var steps :| Run(config, steps) == s;
    assert (steps + [step])[..|steps|] == steps;
    assert Run(config, steps + [step]) == Next(config, s, step);
  }

  /** The second request takes the key over when the first one's lease is up, and then both bodies commit. */
  lemma LateBodyCommitsTwice(config: Config, hash: Hash)
    requires 0 < config.lease && 0 < config.retention
    ensures exists s :: Reachable(config, s) && |s.commits| == 2 && !Spaced(config, s.commits)
  {
    hide Reachable;
    var until := Min(config.lease, config.retention);
    var first := Go(Next(config, START, Arrive(0, hash)), 0, Running(until)).(row := Some(Fresh(config, hash, 0)));
    assert Run(config, []) == START;
    assert Reachable(config, START) by { StartIsReachable(config); }
    NextIsReachable(config, START, Arrive(0, hash));
    var s1 := Next(config, START, Arrive(0, hash));
    NextIsReachable(config, s1, Look(0));
    NextIsReachable(config, Next(config, s1, Look(0)), Reserve(0));
    assert Next(config, Next(config, s1, Look(0)), Reserve(0)) == first;
    var s2 := TakenOver(config, first, hash, until);
    NextIsReachable(config, s2, RunBody(1, 1));
    NextIsReachable(config, Next(config, s2, RunBody(1, 1)), RunBody(0, 2));
    var s3 := Next(config, Next(config, s2, RunBody(1, 1)), RunBody(0, 2));
    assert s3.commits == [Commit(until, hash, 1), Commit(until, hash, 2)];
    assert s3.commits[1].at < s3.commits[0].at + config.retention;
    assert Reachable(config, s3) && |s3.commits| == 2;
  }

  lemma StartIsReachable(config: Config)
    ensures Reachable(config, START)
  {
    assert Run(config, []) == START;
  }

  lemma TakenOver(config: Config, first: State, hash: Hash, until: Time) returns (s: State)
    requires Reachable(config, first) && first.now == 0 && first.requests == map[0 := Request(hash, Running(until))]
    requires first.row == Some(Fresh(config, hash, 0)) && until == Min(config.lease, config.retention)
    requires first.commits == []
    ensures Reachable(config, s) && s.now == until && s.commits == [] && s.row.Some?
    ensures s.requests.Keys == {0, 1} && s.requests[0] == Request(hash, Running(until))
    ensures s.requests[1].hash == hash && s.requests[1].phase.Running?
  {
    hide Reachable;
    NextIsReachable(config, first, Tick(until));
    var s1 := Next(config, first, Tick(until));
    NextIsReachable(config, s1, Arrive(1, hash));
    var s2 := Next(config, s1, Arrive(1, hash));
    NextIsReachable(config, s2, Look(1));
    var s3 := Next(config, s2, Look(1));
    NextIsReachable(config, s3, Sweep(1));
    var s4 := Next(config, s3, Sweep(1));
    NextIsReachable(config, s4, LookAgain(1));
    var s5 := Next(config, s4, LookAgain(1));
    NextIsReachable(config, s5, Reserve(1));
    s := Next(config, s5, Reserve(1));
  }
}
