/** The in-memory fixed-window limiter, with the sweep that forgets closed windows. */
module RateLimit {
  type Key = string
  type Time = int

  datatype Bucket = Bucket(count: nat, resetAt: Time)

  type Store = map<Key, Bucket>

  const SWEEP_ABOVE := 10_000

  /** A request for a key, under a window of so many milliseconds. */
  datatype Request = Request(key: Key, window: nat, time: Time)

  /** An open window counts on, a closed or missing one starts over. */
  function NextBucket(store: Store, request: Request): Bucket {
    if request.key in store && store[request.key].resetAt > request.time
    then Bucket(store[request.key].count + 1, store[request.key].resetAt)
    else Bucket(1, request.time + request.window)
  }

  function Swept(store: Store, now: Time): Store {
    map key | key in store && store[key].resetAt > now :: store[key]
  }

  function Counted(store: Store, request: Request): Store {
    store[request.key := NextBucket(store, request)]
  }

  function Consumed(store: Store, request: Request): Store {
    var counted := Counted(store, request);
    if |counted| > SWEEP_ABOVE then Swept(counted, request.time) else counted
  }

  /** Only a store of more than ten thousand keys is swept, and then exactly the windows that are over go. */
  lemma SweepsLargeStores(store: Store, request: Request, key: Key)
    ensures var counted, after := store[request.key := NextBucket(store, request)], Consumed(store, request);
            && (key in after <==> key in counted && (|counted| <= 10_000 || counted[key].resetAt > request.time))
            && (key in after ==> after[key] == counted[key])
  {
  }

  class MemoryBuckets {
    var buckets: Store

    constructor ()
      ensures buckets == map[]
    {
      buckets := map[];
    }

    method Consume(request: Request) returns (bucket: Bucket)
      modifies this
      ensures bucket == NextBucket(old(buckets), request)
      ensures buckets == Consumed(old(buckets), request)
    {
      var now, key := request.time, request.key;
      if key !in buckets || buckets[key].resetAt <= now {
        bucket := Bucket(1, now + request.window);
      } else {
        bucket := Bucket(buckets[key].count + 1, buckets[key].resetAt);
      }
      buckets := buckets[key := bucket];
      if |buckets| > SWEEP_ABOVE {
        ghost var counted := buckets;
        var todo := buckets.Keys;
        while todo != {}
          invariant todo <= counted.Keys && buckets.Keys <= counted.Keys
          invariant forall k | k in counted :: k in buckets <==> k in todo || counted[k].resetAt > now
          invariant forall k | k in buckets :: buckets[k] == counted[k]
          decreases |todo|
        {
          var next :| next in todo;
          todo := todo - {next};
          if buckets[next].resetAt <= now {
            buckets := buckets - {next};
          }
        }
        assert buckets == Swept(counted, now);
      }
    }
  }

  // ---------------------------------------------------------------- runs

  predicate Ordered(requests: seq<Request>) {
    forall i, j | 0 <= i < j < |requests| :: requests[i].time <= requests[j].time
  }

  function StoreAfter(requests: seq<Request>, sweeping: bool): Store {
    if requests == [] then map[]
    else
      var before, last := StoreAfter(requests[..|requests| - 1], sweeping), requests[|requests| - 1];
      if sweeping then Consumed(before, last) else Counted(before, last)
  }

  /** The bucket each request is judged by. */
  function Judged(requests: seq<Request>, sweeping: bool): (buckets: seq<Bucket>)
    ensures |buckets| == |requests|
  {
    if requests == [] then []
    else
      var front := requests[..|requests| - 1];
      Judged(front, sweeping) + [NextBucket(StoreAfter(front, sweeping), requests[|requests| - 1])]
  }

  /** The sweeping store lacks only windows that were closed by then. */
  ghost predicate Trims(small: Store, full: Store, now: Time) {
    && (forall key | key in small :: key in full && small[key] == full[key])
    && (forall key | key in full && key !in small :: full[key].resetAt <= now)
  }

  lemma TrimmingIsInvisible(small: Store, full: Store, now: Time, request: Request)
    requires Trims(small, full, now) && now <= request.time
    ensures NextBucket(small, request) == NextBucket(full, request)
    ensures Trims(Consumed(small, request), Counted(full, request), request.time)
  {
  }

  function LastTime(requests: seq<Request>): Time {
    if requests == [] then 0 else requests[|requests| - 1].time
  }

  lemma {:induction false} SweepingTrims(requests: seq<Request>)
    requires Ordered(requests)
    ensures Trims(StoreAfter(requests, true), StoreAfter(requests, false), LastTime(requests))
    ensures Judged(requests, true) == Judged(requests, false)
  {
    if requests != [] {
      var front, last := requests[..|requests| - 1], requests[|requests| - 1];
      SweepingTrims(front);
      if front == [] {
        assert StoreAfter(front, true) == map[] == StoreAfter(front, false);
        TrimmingIsInvisible(map[], map[], last.time, last);
      } else {
        TrimmingIsInvisible(StoreAfter(front, true), StoreAfter(front, false), LastTime(front), last);
      }
    }
  }

  /** The sweep never changes a decision. */
  lemma SweepIsInvisible(requests: seq<Request>, max: nat, i: nat)
    requires Ordered(requests) && i < |requests|
    ensures Judged(requests, true)[i].count <= max <==> Judged(requests, false)[i].count <= max
  {
    SweepingTrims(requests);
  }

  // ---------------------------------------------------------------- what a bucket counts

  /** How many requests the key made from a moment on. */
  function Since(requests: seq<Request>, key: Key, start: Time): nat {
    if requests == [] then 0
    else
      var last := requests[|requests| - 1];
      Since(requests[..|requests| - 1], key, start) + if last.key == key && start <= last.time then 1 else 0
  }

  lemma {:induction false} LaterIsFewer(requests: seq<Request>, key: Key, start: Time, later: Time)
    requires start <= later
    ensures Since(requests, key, later) <= Since(requests, key, start)
  {
    if requests != [] {
      LaterIsFewer(requests[..|requests| - 1], key, start, later);
    }
  }

  predicate SameWindow(requests: seq<Request>, key: Key, window: nat) {
    forall i | 0 <= i < |requests| && requests[i].key == key :: requests[i].window == window
  }

  /** The bucket of a key counts its requests since its window began; none came after the window's end. */
  ghost predicate Counts(requests: seq<Request>, key: Key, window: nat) {
    var store := StoreAfter(requests, false);
    if key !in store then forall start :: Since(requests, key, start) == 0
    else
      && requests != [] && store[key].resetAt - window <= LastTime(requests)
      && store[key].count == Since(requests, key, store[key].resetAt - window)
      && Since(requests, key, store[key].resetAt) == 0
  }

  lemma {:induction false} BucketsCount(requests: seq<Request>, key: Key, window: nat)
    requires Ordered(requests) && window > 0 && SameWindow(requests, key, window)
    ensures Counts(requests, key, window)
  {
    if requests != [] {
      var front, last := requests[..|requests| - 1], requests[|requests| - 1];
      BucketsCount(front, key, window);
      var store := StoreAfter(front, false);
      if key in store && store[key].resetAt <= last.time {
        LaterIsFewer(front, key, store[key].resetAt, last.time);
        LaterIsFewer(front, key, store[key].resetAt, last.time + window);
      }
    }
  }

  lemma {:induction false} JudgedAt(requests: seq<Request>, sweeping: bool, i: nat)
    requires i < |requests|
    ensures Judged(requests, sweeping)[i] == NextBucket(StoreAfter(requests[..i], sweeping), requests[i])
  {
    if i < |requests| - 1 {
      JudgedAt(requests[..|requests| - 1], sweeping, i);
      assert requests[..|requests| - 1][..i] == requests[..i];
    }
  }

  /** Every request is judged by the exact number of requests of its key since its window began, itself included. */
  lemma {:induction false} RequestsAreCounted(requests: seq<Request>, i: nat, window: nat)
    requires Ordered(requests) && i < |requests| && window > 0 && SameWindow(requests, requests[i].key, window)
    ensures var bucket := Judged(requests, true)[i];
            && bucket.resetAt - window <= requests[i].time < bucket.resetAt
            && bucket.count == Since(requests[..i + 1], requests[i].key, bucket.resetAt - window)
  {
    var some := requests[..i + 1];
    assert some[..i] == requests[..i] && some[i] == requests[i];
    SweepingTrims(requests);
    JudgedAt(requests, false, i);
    BucketsCount(some, requests[i].key, window);
    BucketsCount(requests[..i], requests[i].key, window);
    hide Since, Ordered;
    assert StoreAfter(some, false) == Counted(StoreAfter(requests[..i], false), requests[i]);
  }

  /** Nobody is refused who made fewer than the maximum of requests within one window's length before. */
  lemma RefusedOnlyWhenFull(requests: seq<Request>, i: nat, window: nat, max: nat)
    requires Ordered(requests) && i < |requests| && window > 0 && SameWindow(requests, requests[i].key, window)
    requires Judged(requests, true)[i].count > max
    ensures Since(requests[..i], requests[i].key, requests[i].time - window + 1) >= max
  {
    RequestsAreCounted(requests, i, window);
    var bucket := Judged(requests, true)[i];
    assert requests[..i + 1][..i] == requests[..i];
    LaterIsFewer(requests[..i], requests[i].key, requests[i].time - window + 1, bucket.resetAt - window);
  }

  // ---------------------------------------------------------------- how many requests get through

  /** The admitted requests of the key in the half-open interval from `start`. */
  function Admitted(requests: seq<Request>, sweeping: bool, key: Key, max: nat, start: Time, length: nat): nat {
    if requests == [] then 0
    else
      var front, last := requests[..|requests| - 1], requests[|requests| - 1];
      Admitted(front, sweeping, key, max, start, length)
      + if last.key == key && start <= last.time < start + length
           && NextBucket(StoreAfter(front, sweeping), last).count <= max then 1 else 0
  }

  function Min(a: nat, b: nat): nat {
    if a < b then a else b
  }

  /** What the last window of the key says about the requests admitted since `start`. */
  ghost predicate WindowsCount(requests: seq<Request>, key: Key, max: nat, start: Time, window: nat) {
    var store, admitted := StoreAfter(requests, false), Admitted(requests, false, key, max, start, window);
    if key !in store then admitted == 0
    else
      var last := store[key];
      && (requests != [] ==> last.resetAt - window <= LastTime(requests))
      && (if last.resetAt <= start then admitted == 0
          else if last.resetAt - window < start then admitted <= Min(last.count, max)
          else if last.resetAt - window < start + window then admitted <= max + Min(last.count, max)
          else admitted <= 2 * max)
  }

  lemma OneMoreRequest(requests: seq<Request>, key: Key, max: nat, start: Time, window: nat)
    requires requests != [] && Ordered(requests) && window > 0
    requires forall i | 0 <= i < |requests| && requests[i].key == key :: requests[i].window == window
    requires WindowsCount(requests[..|requests| - 1], key, max, start, window)
    ensures WindowsCount(requests, key, max, start, window)
  {
  }

  lemma {:induction false} WindowsAlwaysCount(requests: seq<Request>, key: Key, max: nat, start: Time, window: nat)
    requires Ordered(requests) && window > 0
    requires forall i | 0 <= i < |requests| && requests[i].key == key :: requests[i].window == window
    ensures WindowsCount(requests, key, max, start, window)
  {
    if requests != [] {
      WindowsAlwaysCount(requests[..|requests| - 1], key, max, start, window);
      OneMoreRequest(requests, key, max, start, window);
    }
  }

  /** No interval of one window's length lets more than twice the maximum through, wherever it starts. */
  lemma TwiceTheMaximum(requests: seq<Request>, key: Key, max: nat, start: Time, window: nat)
    requires Ordered(requests) && window > 0
    requires forall i | 0 <= i < |requests| && requests[i].key == key :: requests[i].window == window
    ensures Admitted(requests, true, key, max, start, window) <= 2 * max
  {
    WindowsAlwaysCount(requests, key, max, start, window);
    SweepingAdmitsTheSame(requests, key, max, start, window);
  }

  lemma {:induction false} SweepingAdmitsTheSame(requests: seq<Request>, key: Key, max: nat, start: Time, length: nat)
    requires Ordered(requests)
    ensures Admitted(requests, true, key, max, start, length) == Admitted(requests, false, key, max, start, length)
  {
    if requests != [] {
      SweepingAdmitsTheSame(requests[..|requests| - 1], key, max, start, length);
      SweepingTrims(requests);
      assert Judged(requests, true)[|requests| - 1] == Judged(requests, false)[|requests| - 1];
    }
  }
}
