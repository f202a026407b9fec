/** The delivery rows and the writes that follow one attempt, one after the other in one transaction. */
module WebhookStore {
  import opened Results
  import opened Webhooks

  class Outbox {
    var s: State

    constructor ()
      ensures s == START
    {
      s := START;
    }

    /** The endpoints that the query for the event returns, in its order. */
    method CreateDeliveriesForEvent(event: EventType, targets: seq<Id>)
      modifies this
      ensures s == Fanout(old(s), event, targets)
    {
      for i := 0 to |targets|
        invariant s == Fanout(old(s), event, targets[..i])
      {
        assert targets[..i + 1][..i] == targets[..i];
        var id := s.next;
        s := s.(deliveries := s.deliveries[id := Delivery(targets[i], event, Pending, 0)], next := id + 1);
        s := s.(jobs := s.jobs + multiset{Job(id, First)});
      }
      assert targets[..|targets|] == targets;
    }

    /** Compares status and attempts, and counts the attempt. */
    method UpdateResult(d: Id, expected: Status, expectedAttempts: nat, status: Status) returns (applied: bool)
      modifies this
      ensures applied <==> d in old(s).deliveries && old(s).deliveries[d].status == expected
                           && old(s).deliveries[d].attempts == expectedAttempts
      ensures !applied ==> s == old(s)
      ensures applied ==>
                s == old(s).(deliveries := old(s).deliveries[d := old(s).deliveries[d].(status := status,
                                                                                     attempts := expectedAttempts + 1)],
                             records := old(s).records + multiset{Record(d, expectedAttempts + 1, status)})
    {
      if d !in s.deliveries || s.deliveries[d].status != expected || s.deliveries[d].attempts != expectedAttempts {
        return false;
      }
      var row := s.deliveries[d].(status := status, attempts := s.deliveries[d].attempts + 1);
      s := s.(deliveries := s.deliveries[d := row], records := s.records + multiset{Record(d, row.attempts, status)});
      applied := true;
    }

    /** A delivery about a failure does not cause another event. */
    method RecordFinalFailure(snapshot: Snapshot, targets: seq<Id>)
      modifies this
      ensures s == if snapshot.event == DeliveryFailed then old(s)
                   else Fanout(old(s).(notices := old(s).notices + multiset{Notice(snapshot.delivery, snapshot.attempts + 1)}),
                               DeliveryFailed, targets)
    {
      if snapshot.event == DeliveryFailed {
        return;
      }
      s := s.(notices := s.notices + multiset{Notice(snapshot.delivery, snapshot.attempts + 1)});
      CreateDeliveriesForEvent(DeliveryFailed, targets);
    }

    method RecordDeliveryResult(snapshot: Snapshot, status: Status, final: bool, retryKey: Option<nat>, targets: seq<Id>)
      returns (applied: bool)
      modifies this
      ensures applied <==> Current(old(s), snapshot)
      ensures !applied ==> s == old(s)
      ensures applied ==>
                var written := old(s).(deliveries := old(s).deliveries[snapshot.delivery :=
                                           old(s).deliveries[snapshot.delivery].(status := status,
                                                                                 attempts := snapshot.attempts + 1)],
                                       records := old(s).records
                                                  + multiset{Record(snapshot.delivery, snapshot.attempts + 1, status)});
                var told := if !final || snapshot.event == DeliveryFailed then written
                            else Fanout(written.(notices := written.notices
                                                 + multiset{Notice(snapshot.delivery, snapshot.attempts + 1)}),
                                        DeliveryFailed, targets);
                s == if retryKey.None? then told
                     else told.(jobs := told.jobs + multiset{Job(snapshot.delivery, After(retryKey.value))})
    {
      applied := UpdateResult(snapshot.delivery, snapshot.status, snapshot.attempts, status);
      if !applied {
        return;
      }
      if final {
        RecordFinalFailure(snapshot, targets);
      }
      if retryKey.Some? {
        s := s.(jobs := s.jobs + multiset{Job(snapshot.delivery, After(retryKey.value))});
      }
    }

    /** What is written after the attempt, whoever else wrote in between. */
    method FinishDelivery(snapshot: Snapshot, outcome: Outcome, targets: seq<Id>) returns (applied: bool)
      modifies this
      ensures s == RecordResult(old(s), snapshot, outcome, targets)
      ensures applied <==> Current(old(s), snapshot)
    {
      match outcome {
        case Succeeds => applied := RecordDeliveryResult(snapshot, Delivered, false, None, targets);
        case Unusable => applied := RecordDeliveryResult(snapshot, Failed, true, None, targets);
        case Fails =>
          var failedAttempts := snapshot.attempts + 1;
          var delay := RetryDelay(failedAttempts);
          if delay.Some? {
            applied := RecordDeliveryResult(snapshot, Retry, false, Some(failedAttempts), targets);
          } else {
            applied := RecordDeliveryResult(snapshot, Failed, true, None, targets);
          }
      }
    }

    method RetryByHand(d: Id, time: nat) returns (updated: bool)
      modifies this
      ensures s == RetryManually(old(s), d, time)
      ensures updated <==> d in old(s).deliveries && old(s).deliveries[d].status in {Failed, Retry}
    {
      if d !in s.deliveries || (s.deliveries[d].status != Failed && s.deliveries[d].status != Retry) {
        return false;
      }
      s := s.(deliveries := s.deliveries[d := s.deliveries[d].(status := Pending)]);
      s := s.(jobs := s.jobs + multiset{Job(d, Manual(time))});
      updated := true;
    }
  }
}
