/** The dependency gate: which blocking audit records the policy's exceptions cover. */
module AuditGate {
  type Package = string

  datatype Exception = Exception(id: string, packages: set<Package>)

  /** A record is caused by another package, or by an advisory of its own. */
  datatype Cause = ByPackage(name: Package) | ByAdvisory(url: string, source: string)

  /** A vulnerability record at or above the threshold. */
  datatype Record = Record(package: Package, via: seq<Cause>)

  predicate Contains(text: string, part: string) {
    exists i | 0 <= i <= |text| :: part <= text[i..]
  }

  predicate Excepts(exception: Exception, package: Package, cause: Cause) {
    && cause.ByAdvisory? && package in exception.packages
    && (Contains(cause.url, exception.id) || cause.source == exception.id)
  }

  predicate HasException(policy: seq<Exception>, package: Package, cause: Cause) {
    exists exception | exception in policy :: Excepts(exception, package, cause)
  }

  function Blocking(records: seq<Record>): set<Package> {
    set record | record in records :: record.package
  }

  /** Every cause is excepted, does not block, or is itself accepted. */
  predicate Covered(policy: seq<Exception>, blocking: set<Package>, record: Record, accepted: set<Package>) {
    forall cause | cause in record.via ::
      if cause.ByPackage? then cause.name !in blocking || cause.name in accepted
      else HasException(policy, record.package, cause)
  }

  // ---------------------------------------------------------------- chains of exceptions

  function Elements(chain: seq<Package>): set<Package> {
    set p | p in chain
  }

  /** The package is covered by what comes before it in the chain. */
  ghost predicate Follows(policy: seq<Exception>, records: seq<Record>, p: Package, before: seq<Package>) {
    exists record | record in records ::
      record.package == p && Covered(policy, Blocking(records), record, Elements(before))
  }

  ghost predicate IsChain(policy: seq<Exception>, records: seq<Record>, chain: seq<Package>) {
    forall i | 0 <= i < |chain| :: Follows(policy, records, chain[i], chain[..i])
  }

  ghost predicate Derivable(policy: seq<Exception>, records: seq<Record>, p: Package) {
    exists chain :: IsChain(policy, records, chain) && p in chain
  }

  /** Whatever an accepted set covers is in it. */
  ghost predicate Closed(policy: seq<Exception>, records: seq<Record>, accepted: set<Package>) {
    forall record | record in records && Covered(policy, Blocking(records), record, accepted) :: record.package in accepted
  }

  lemma CoveredByMore(policy: seq<Exception>, blocking: set<Package>, record: Record, some: set<Package>, more: set<Package>)
    requires Covered(policy, blocking, record, some) && some <= more
    ensures Covered(policy, blocking, record, more)
  {
  }

  /** No closed set leaves out a link of a chain. */
  lemma {:induction false} ChainIsInside(policy: seq<Exception>, records: seq<Record>, chain: seq<Package>, accepted: set<Package>)
    requires IsChain(policy, records, chain) && Closed(policy, records, accepted)
    ensures Elements(chain) <= accepted
  {
    if chain != [] {
      var front, last := chain[..|chain| - 1], chain[|chain| - 1];
      assert forall i | 0 <= i < |front| :: front[..i] == chain[..i];
      ChainIsInside(policy, records, front, accepted);
      assert Follows(policy, records, last, front);
      var record :| record in records && record.package == last
                    && Covered(policy, Blocking(records), record, Elements(front));
      CoveredByMore(policy, Blocking(records), record, Elements(front), accepted);
    }
  }

  lemma ChainGrows(policy: seq<Exception>, records: seq<Record>, chain: seq<Package>, record: Record)
    requires IsChain(policy, records, chain) && record in records
    requires Covered(policy, Blocking(records), record, Elements(chain))
    ensures IsChain(policy, records, chain + [record.package])
    ensures Elements(chain + [record.package]) == Elements(chain) + {record.package}
  {
    var longer := chain + [record.package];
    forall i | 0 <= i < |longer| ensures Follows(policy, records, longer[i], longer[..i]) {
      assert i < |chain| ==> longer[..i] == chain[..i] && Follows(policy, records, chain[i], chain[..i]);
      assert i == |chain| ==> longer[..i] == chain;
    }
  }

  /** The gate: rounds over the records until one of them accepts nothing more. */
  method Accept(policy: seq<Exception>, records: seq<Record>) returns (accepted: set<Package>, rounds: nat)
    requires forall i, j | 0 <= i < j < |records| :: records[i].package != records[j].package
    ensures forall p :: p in accepted <==> Derivable(policy, records, p)
    ensures rounds <= |records| + 1
  {
    var blocking := Blocking(records);
    accepted, rounds := {}, 0;
    ghost var chain: seq<Package> := [];
    var changed := true;
    while changed
      invariant IsChain(policy, records, chain) && accepted == Elements(chain)
      invariant accepted <= blocking && rounds <= |accepted| + (if changed then 0 else 1)
      invariant !changed ==> Closed(policy, records, accepted)
      decreases |blocking| - |accepted| + (if changed then 1 else 0), changed
    {
      changed := false;
      rounds := rounds + 1;
      ghost var before := accepted;
      for i := 0 to |records|
        invariant IsChain(policy, records, chain) && accepted == Elements(chain)
        invariant before <= accepted <= blocking && (changed <==> before != accepted)
        invariant !changed ==> forall k | 0 <= k < i ::
                    records[k].package in accepted || !Covered(policy, blocking, records[k], accepted)
      {
        if records[i].package in accepted {
          continue;
        }
        if Covered(policy, blocking, records[i], accepted) {
          ChainGrows(policy, records, chain, records[i]);
          chain := chain + [records[i].package];
          accepted := accepted + {records[i].package};
          changed := true;
        }
      }
      ProperGrowth(before, accepted, blocking);
      if !changed {
        assert forall record | record in records :: exists k | 0 <= k < |records| :: records[k] == record;
      }
    }
    BlockingIsSmall(records);
    SmallerSet(accepted, blocking);
    forall p ensures p in accepted <==> Derivable(policy, records, p) {
      if other :| IsChain(policy, records, other) && p in other {
        ChainIsInside(policy, records, other, accepted);
      }
    }
  }

  lemma SmallerSet(small: set<Package>, big: set<Package>)
    requires small <= big
    ensures |small| <= |big|
  {
    assert big == small + (big - small);
  }

  lemma ProperGrowth(before: set<Package>, after: set<Package>, all: set<Package>)
    requires before <= after <= all
    ensures |before| <= |after| <= |all| && (before != after ==> |before| < |after|)
  {
    SmallerSet(after, all);
    assert after == before + (after - before);
  }

  lemma {:induction false} BlockingIsSmall(records: seq<Record>)
    ensures |Blocking(records)| <= |records|
  {
    if records != [] {
      var front := records[..|records| - 1];
      BlockingIsSmall(front);
      assert Blocking(records) == Blocking(front) + {records[|records| - 1].package};
    }
  }

  // ---------------------------------------------------------------- what is accepted

  /** Chains derive the least set that contains whatever it covers. */
  lemma {:induction false} DerivableIsLeast(policy: seq<Exception>, records: seq<Record>, closed: set<Package>, p: Package)
    requires Closed(policy, records, closed) && Derivable(policy, records, p)
    ensures p in closed
  {
    var chain :| IsChain(policy, records, chain) && p in chain;
    ChainIsInside(policy, records, chain, closed);
  }

  /**
   A package is accepted exactly if it has a record all of whose causes are
   excused: an advisory by an exception of the policy that names the package
   and the advisory, another package by not blocking or being accepted too.
   */
  lemma {:induction false} AcceptedIsExcused(policy: seq<Exception>, records: seq<Record>, p: Package)
    ensures Derivable(policy, records, p) <==>
            exists record | record in records ::
              record.package == p && forall cause | cause in record.via :: Excused(policy, records, p, cause)
  {
    if Derivable(policy, records, p) {
      var chain :| IsChain(policy, records, chain) && p in chain;
      var i :| 0 <= i < |chain| && chain[i] == p;
      assert Follows(policy, records, chain[i], chain[..i]);
      var record :| record in records && record.package == p
                    && Covered(policy, Blocking(records), record, Elements(chain[..i]));
      forall cause | cause in record.via ensures Excused(policy, records, p, cause) {
        if cause.ByPackage? && cause.name in Elements(chain[..i]) {
          assert Derivable(policy, records, cause.name);
        }
        if cause.ByAdvisory? {
          NamedByException(policy, p, cause);
        }
      }
    }
    if record :| record in records && record.package == p
                 && forall cause | cause in record.via :: Excused(policy, records, p, cause) {
      var chain := ChainOfAll(policy, records, |record.via|, record);
      ChainGrows(policy, records, chain, record);
      assert p in chain + [p];
    }
  }

  ghost predicate Excused(policy: seq<Exception>, records: seq<Record>, p: Package, cause: Cause) {
    match cause
    case ByPackage(name) => (forall record | record in records :: record.package != name) || Derivable(policy, records, name)
    case ByAdvisory(url, source) =>
      exists exception | exception in policy ::
        p in exception.packages && (source == exception.id || PartOf(exception.id, url))
  }

  ghost predicate PartOf(part: string, text: string) {
    exists before, after :: text == before + part + after
  }

  lemma ContainsIsPart(text: string, part: string)
    ensures Contains(text, part) <==> PartOf(part, text)
  {
    if i :| 0 <= i <= |text| && part <= text[i..] {
      assert text == text[..i] + part + text[i + |part|..];
    }
    if before, after :| text == before + part + after {
      assert text[|before|..] == part + after;
    }
  }

  lemma NamedByException(policy: seq<Exception>, p: Package, cause: Cause)
    requires cause.ByAdvisory?
    ensures HasException(policy, p, cause) <==>
            exists exception | exception in policy ::
              p in exception.packages && (cause.source == exception.id || PartOf(exception.id, cause.url))
  {
    forall exception | exception in policy
      ensures Contains(cause.url, exception.id) <==> PartOf(exception.id, cause.url)
    {
      ContainsIsPart(cause.url, exception.id);
    }
    hide Contains, PartOf;
  }

  lemma ChainsJoin(policy: seq<Exception>, records: seq<Record>, some: seq<Package>, other: seq<Package>)
    requires IsChain(policy, records, some) && IsChain(policy, records, other)
    ensures IsChain(policy, records, some + other)
  {
    var both := some + other;
    forall i | 0 <= i < |both| ensures Follows(policy, records, both[i], both[..i]) {
      if i < |some| {
        assert both[..i] == some[..i] && Follows(policy, records, some[i], some[..i]);
      } else {
        var j := i - |some|;
        assert both[..i] == some + other[..j] && Follows(policy, records, other[j], other[..j]);
        var record :| record in records && record.package == other[j]
                      && Covered(policy, Blocking(records), record, Elements(other[..j]));
        CoveredByMore(policy, Blocking(records), record, Elements(other[..j]), Elements(both[..i]));
      }
    }
  }

  /** One chain that covers the first causes of a record. */
  lemma {:induction false} ChainOfAll(policy: seq<Exception>, records: seq<Record>, n: nat, record: Record)
    returns (chain: seq<Package>)
    requires n <= |record.via| && forall cause | cause in record.via :: Excused(policy, records, record.package, cause)
    ensures IsChain(policy, records, chain)
    ensures Covered(policy, Blocking(records), Record(record.package, record.via[..n]), Elements(chain))
  {
    chain := [];
    if n > 0 {
      var front := ChainOfAll(policy, records, n - 1, record);
      var cause := record.via[n - 1];
      assert Excused(policy, records, record.package, cause) && record.via[..n] == record.via[..n - 1] + [cause];
      chain := front;
      if cause.ByPackage? && cause.name in Blocking(records) {
        var other :| IsChain(policy, records, other) && cause.name in other;
        ChainsJoin(policy, records, front, other);
        chain := front + other;
      } else if cause.ByAdvisory? {
        NamedByException(policy, record.package, cause);
      }
      CoveredByMore(policy, Blocking(records), Record(record.package, record.via[..n - 1]), Elements(front), Elements(chain));
      assert forall c | c in record.via[..n] :: c in record.via[..n - 1] || c == cause;
      hide HasException, IsChain, Excused;
    }
  }

  /** The order of the records does not matter. */
  lemma {:induction false} OrderDoesNotMatter(policy: seq<Exception>, records: seq<Record>, others: seq<Record>, p: Package)
    requires forall record :: record in records <==> record in others
    ensures Derivable(policy, records, p) <==> Derivable(policy, others, p)
  {
    assert Blocking(records) == Blocking(others);
    if Derivable(policy, records, p) {
      SameChains(policy, records, others, p);
    }
    if Derivable(policy, others, p) {
      SameChains(policy, others, records, p);
    }
  }

  lemma {:induction false} SameChains(policy: seq<Exception>, records: seq<Record>, others: seq<Record>, p: Package)
    requires (forall record | record in records :: record in others) && Blocking(records) == Blocking(others)
    requires Derivable(policy, records, p)
    ensures Derivable(policy, others, p)
  {
    var chain :| IsChain(policy, records, chain) && p in chain;
    forall i | 0 <= i < |chain| ensures Follows(policy, others, chain[i], chain[..i]) {
      assert Follows(policy, records, chain[i], chain[..i]);
      hide Covered, Blocking, Elements;
    }
  }

  /** Packages that are only excused by each other are refused. */
  lemma {:induction false} CyclesAreRefused(policy: seq<Exception>, records: seq<Record>, cycle: set<Package>, p: Package)
    requires cycle <= Blocking(records)
    requires forall record | record in records && record.package in cycle ::
               exists cause | cause in record.via :: cause.ByPackage? && cause.name in cycle
    requires p in cycle
    ensures !Derivable(policy, records, p)
  {
    var rest := Blocking(records) - cycle;
    assert Closed(policy, records, rest) by {
      forall record | record in records && Covered(policy, Blocking(records), record, rest)
        ensures record.package in rest
      {
        assert record.package in Blocking(records);
      }
    }
    if Derivable(policy, records, p) {
      DerivableIsLeast(policy, records, rest, p);
    }
  }
}
