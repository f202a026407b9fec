/** The table of idempotency keys of one app, and one request running on it without interruption. */
module IdempotencyStore {
  import opened Results
  import opened Idempotency

  type Key = string

  datatype Failure = KeyRequired | KeyTooLong | KeyConflict | KeyInProgress | UniqueViolation | RowMissing | BodyFailed

  function Blank(c: char): bool {
    c == ' ' || c == '\t'
  }

  function Trim(s: string): string
    decreases |s|
  {
    if s != "" && Blank(s[0]) then Trim(s[1..])
    else if s != "" && Blank(s[|s| - 1]) then Trim(s[..|s| - 1])
    else s
  }

  /** The key a request names in its header. */
  function KeyOf(header: Option<string>): Result<Key, Failure> {
    if header == None || Trim(header.value) == "" then Err(KeyRequired)
    else if |Trim(header.value)| > 200 then Err(KeyTooLong)
    else Ok(Trim(header.value))
  }

  /** The moments at which one request reads the clock. */
  datatype Moments = Moments(looks: Time, sweeps: Time, reserves: Time, completes: Time, looksAgain: Time, sweepsAgain: Time) {
    predicate InOrder() {
      looks <= sweeps <= reserves <= completes <= looksAgain <= sweepsAgain
    }
  }

  class Keys {
    var rows: map<Key, Row>
    const config: Config

    constructor (config: Config)
      ensures rows == map[] && this.config == config
    {
      rows := map[];
      this.config := config;
    }

    function Find(key: Key): (row: Option<Row>)
      reads this
      ensures row.Some? <==> key in rows
    {
      if key in rows then Some(rows[key]) else None
    }

    /** Only the row of this key may have changed. */
    twostate predicate OnlyKey(key: Key)
      reads this
    {
      rows - {key} == old(rows) - {key}
    }

    method Reserve(key: Key, hash: Hash, now: Time) returns (thrown: Option<Failure>)
      modifies this
      ensures OnlyKey(key)
      ensures old(Find(key)).Some? ==> thrown == Some(UniqueViolation) && Find(key) == old(Find(key))
      ensures old(Find(key)).None? ==> thrown == None && Find(key) == Some(Fresh(config, hash, now))
    {
      if key in rows {
        return Some(UniqueViolation);
      }
      rows := rows[key := Row(hash, None, now + config.lease, now + config.retention)];
      thrown := None;
    }

    method Complete(key: Key, hash: Hash, response: Response, now: Time) returns (thrown: Option<Failure>)
      modifies this
      ensures OnlyKey(key)
      ensures old(Find(key)).None? ==> thrown == Some(RowMissing) && Find(key) == None
      ensures old(Find(key)).Some? ==>
                thrown == None && Find(key) == Some(Completed(config, old(rows[key]), hash, response, now))
    {
      if key !in rows {
        return Some(RowMissing);
      }
      rows := rows[key := Row(hash, Some(response), rows[key].leaseUntil, now + config.retention)];
      thrown := None;
    }

    method DeleteExpired(key: Key, now: Time)
      modifies this
      ensures OnlyKey(key) && Find(key) == Swept(old(Find(key)), now)
    {
      if key in rows && (rows[key].expiresAt <= now || (rows[key].response == None && rows[key].leaseUntil <= now)) {
        rows := rows - {key};
      }
    }

    method DeletePending(key: Key, hash: Hash)
      modifies this
      ensures OnlyKey(key) && Find(key) == Cleared(old(Find(key)), hash)
    {
      if key in rows && rows[key].hash == hash && rows[key].response == None {
        rows := rows - {key};
      }
    }

    /** The background sweep treats every key as a lookup of it would. */
    method CleanupExpired(now: Time)
      modifies this
      ensures forall key :: Find(key) == Swept(old(Find(key)), now)
    {
      rows := map key | key in rows && !Stale(rows[key], now) :: rows[key];
    }

    /** What a lookup throws or replays, given the row it is left with. */
    static ghost predicate Answers(row: Option<Row>, hash: Hash, thrown: Option<Failure>, replay: Option<Response>) {
      match Judge(row, hash)
      case Free => thrown == None && replay == None
      case Replay(response) => thrown == None && replay == Some(response)
      case Mismatch => thrown == Some(KeyConflict)
      case InProgress => thrown == Some(KeyInProgress)
    }

    /** Deletes a row that was stale when it was read, and judges what is left. */
    method Lookup(key: Key, hash: Hash, looks: Time, sweeps: Time) returns (thrown: Option<Failure>, replay: Option<Response>)
      requires looks <= sweeps
      modifies this
      ensures OnlyKey(key) && Find(key) == Swept(old(Find(key)), looks)
      ensures Answers(Find(key), hash, thrown, replay)
    {
      replay := None;
      var existing := Find(key);
      if existing.Some? && (existing.value.expiresAt <= looks
                            || (existing.value.response == None && existing.value.leaseUntil <= looks)) {
        DeleteExpired(key, sweeps);
        existing := Find(key);
      }
      if existing == None {
        return None, None;
      }
      if existing.value.hash != hash {
        return Some(KeyConflict), None;
      }
      if existing.value.response == None {
        return Some(KeyInProgress), None;
      }
      return None, existing.value.response;
    }

    method GetReplay(header: Option<string>, hash: Hash, looks: Time, sweeps: Time)
      returns (key: Result<Key, Failure>, thrown: Option<Failure>, replay: Option<Response>)
      requires looks <= sweeps
      modifies this
      ensures key == KeyOf(header)
      ensures key.Err? ==> thrown == Some(key.error) && rows == old(rows)
      ensures key.Ok? ==> OnlyKey(key.value) && Find(key.value) == Swept(old(Find(key.value)), looks)
                          && Answers(Find(key.value), hash, thrown, replay)
    {
      replay := None;
      if header == None {
        return Err(KeyRequired), Some(KeyRequired), None;
      }
      var trimmed := Trim(header.value);
      if trimmed == "" {
        return Err(KeyRequired), Some(KeyRequired), None;
      }
      if |trimmed| > 200 {
        return Err(KeyTooLong), Some(KeyTooLong), None;
      }
      key := Ok(trimmed);
      thrown, replay := Lookup(trimmed, hash, looks, sweeps);
    }

    /** What the caller gets when the key is looked up once more after a unique-constraint error. */
    static ghost predicate AfterRace(row: Option<Row>, hash: Hash, result: Result<Response, Failure>) {
      match Judge(row, hash)
      case Replay(response) => result == Ok(response)
      case Mismatch => result == Err(KeyConflict)
      case InProgress => result == Err(KeyInProgress)
      case Free => result == Err(UniqueViolation)
    }

    /**
     A stored response is repeated without running the body.  A free key runs
     it once, keeps a response that came back and forgets a failure.  Between
     the lookup and the reservation a rival may have written the row; then the
     rival's row decides.  A body that itself violates a unique constraint
     finds its own reservation in progress and leaves it, unless its lease has
     ended by then.
     */
    method RunIdempotent(header: Option<string>, hash: Hash, at: Moments, rival: Option<Row>, body: Result<Response, Failure>)
      returns (result: Result<Response, Failure>)
      requires at.InOrder()
      modifies this
      ensures KeyOf(header).Err? ==> result == Err(KeyOf(header).error) && rows == old(rows)
      ensures KeyOf(header).Ok? ==>
                var key := KeyOf(header).value;
                var found := Swept(old(Find(key)), at.looks);
                && OnlyKey(key)
                && match Judge(found, hash)
                   case Replay(response) => result == Ok(response) && Find(key) == found
                   case Mismatch => result == Err(KeyConflict) && Find(key) == found
                   case InProgress => result == Err(KeyInProgress) && Find(key) == found
                   case Free => Ran(key, hash, at, rival, body, result)
    {
      var key, thrown, replay := GetReplay(header, hash, at.looks, at.sweeps);
      if thrown != None {
        return Err(thrown.value);
      }
      if replay != None {
        return Ok(replay.value);
      }
      if rival.Some? {
        rows := rows[key.value := rival.value];
      }
      var reserved := false;
      thrown := Reserve(key.value, hash, at.reserves);
      if thrown == None {
        reserved := true;
        if body.Ok? {
          thrown := Complete(key.value, hash, body.value, at.completes);
        } else {
          thrown := Some(body.error);
        }
      }
      if thrown == None {
        return body;
      }
      if thrown == Some(UniqueViolation) {
        var conflict, again := Lookup(key.value, hash, at.looksAgain, at.sweepsAgain);
        if conflict != None {
          return Err(conflict.value);
        }
        if again != None {
          return Ok(again.value);
        }
      }
      if reserved {
        DeletePending(key.value, hash);
      }
      result := Err(thrown.value);
    }

    /** How a request with a free key ends, and the row it leaves. */
    ghost predicate Ran(key: Key, hash: Hash, at: Moments, rival: Option<Row>, body: Result<Response, Failure>,
                        result: Result<Response, Failure>)
      reads this
    {
      var reservation := Fresh(config, hash, at.reserves);
      if rival.Some? then
        AfterRace(Swept(rival, at.looksAgain), hash, result) && Find(key) == Swept(rival, at.looksAgain)
      else if body == Err(UniqueViolation) then
        var left := Swept(Some(reservation), at.looksAgain);
        AfterRace(left, hash, result) && Find(key) == left
      else
        && result == body
        && Find(key) == (if body.Err? then None else Some(Completed(config, reservation, hash, body.value, at.completes)))
    }
  }

  /**
   Until its lease or the key is over a reservation answers the same request
   with in progress and any other with a conflict; then the key is free again.
   */
  lemma ReservationHolds(config: Config, hash: Hash, other: Hash, now: Time, later: Time)
    ensures var kept := Swept(Some(Fresh(config, hash, now)), later);
            if later < now + config.lease && later < now + config.retention then
              Judge(kept, other) == if other == hash then InProgress else Mismatch
            else kept == None && Judge(kept, other) == Free
  {
  }

  /** A body that failed gives up its own reservation, and nothing else. */
  lemma FailureFreesTheKey(row: Row, hash: Hash)
    ensures Cleared(Some(row), hash) == if row.hash == hash && row.response == None then None else Some(row)
    ensures Cleared(None, hash) == None && Judge(None, hash) == Free
  {
  }

  /** Spaces and tabs around the key are cut off, and nothing else. */
  lemma {:induction false} TrimCutsBlanks(s: string) returns (before: string, after: string)
    ensures s == before + Trim(s) + after
    ensures forall i | 0 <= i < |before| :: before[i] in " \t"
    ensures forall i | 0 <= i < |after| :: after[i] in " \t"
    ensures Trim(s) != "" ==> Trim(s)[0] !in " \t" && Trim(s)[|Trim(s)| - 1] !in " \t"
    decreases |s|
  {
    before, after := "", "";
    if s != "" && Blank(s[0]) {
      before, after := TrimCutsBlanks(s[1..]);
      before := [s[0]] + before;
    } else if s != "" && Blank(s[|s| - 1]) {
      before, after := TrimCutsBlanks(s[..|s| - 1]);
      after := after + [s[|s| - 1]];
      assert s == s[..|s| - 1] + [s[|s| - 1]];
    }
  }

  /** A header names a key exactly if one to two hundred characters are left of it. */
  lemma KeysFit(header: Option<string>)
    ensures KeyOf(header)
            == if header.Some? && 1 <= |Trim(header.value)| <= 200 then Ok(Trim(header.value))
               else Err(if header.Some? && |Trim(header.value)| > 200 then KeyTooLong else KeyRequired)
  {
  }

  /** Until it expires a stored response is what every retry gets, and nobody else. */
  lemma StoredResponseIsReplayed(config: Config, row: Row, hash: Hash, other: Hash, response: Response, now: Time, later: Time)
    ensures var kept := Swept(Some(Completed(config, row, hash, response, now)), later);
            if later < now + config.retention then
              Judge(kept, other) == if other == hash then Replay(response) else Mismatch
            else kept == None && Judge(kept, other) == Free
  {
  }
}
