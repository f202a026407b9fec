/** Sums over rows, independent of the order the rows are visited in. */
module Sums {
  import opened Ledger

  ghost function Total<K>(amounts: map<K, nat>): nat
    decreases |amounts|
  {
    if amounts == map[] then 0
    else
      var k :| k in amounts;
      amounts[k] + Total(amounts - {k})
  }

  /** Any row may be counted first. */
  lemma {:induction false} TotalSplit<K>(amounts: map<K, nat>, k: K)
    requires k in amounts
    ensures Total(amounts) == amounts[k] + Total(amounts - {k})
    decreases |amounts|
  {
    var first :| first in amounts && Total(amounts) == amounts[first] + Total(amounts - {first});
    if first != k {
      TotalSplit(amounts - {first}, k);
      TotalSplit(amounts - {k}, first);
      assert amounts - {first} - {k} == amounts - {k} - {first};
    }
  }

  lemma TotalInsert<K>(amounts: map<K, nat>, k: K, amount: nat)
    requires k !in amounts
    ensures Total(amounts[k := amount]) == Total(amounts) + amount
  {
    TotalSplit(amounts[k := amount], k);
    assert amounts[k := amount] - {k} == amounts;
  }

  /** Rows that map one-to-one into larger rows sum to no more. */
  lemma {:induction false} TotalDominated<K, L>(small: map<K, nat>, big: map<L, nat>, into: map<K, L>)
    requires into.Keys == small.Keys
    requires forall k | k in small :: into[k] in big && small[k] <= big[into[k]]
    requires forall k, l | k in small && l in small && k != l :: into[k] != into[l]
    ensures Total(small) <= Total(big)
    decreases |small|
  {
    if k :| k in small {
      TotalSplit(small, k);
      TotalSplit(big, into[k]);
      TotalDominated(small - {k}, big - {into[k]}, into - {k});
    } else {
      assert small == map[];
    }
  }

  function MilestoneAmounts(db: Ledger, a: Id): map<Id, nat> {
    map m | m in db.milestones && db.milestones[m].agreement == a :: db.milestones[m].amount
  }

  /** The amounts of the escrows scoped to a milestone of the agreement, whatever their status. */
  function MilestoneEscrowAmounts(db: Ledger, a: Id): map<Id, nat> {
    map e | e in db.escrows && db.escrows[e].scope.agreement == a && db.escrows[e].scope.milestone.Some?
      :: db.escrows[e].amount
  }

  function EscrowAmounts(db: Ledger, a: Id): map<Id, nat> {
    map e | e in db.escrows && db.escrows[e].scope.agreement == a :: db.escrows[e].amount
  }

  ghost function Allocated(db: Ledger, a: Id): nat {
    Total(MilestoneAmounts(db, a))
  }
}
