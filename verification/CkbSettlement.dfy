/**
 Settlement transactions on the chain: what the lock script sees of them, what
 the reconciler verifies about them, and the ones the signer builds.
 */
module CkbSettlement {
  import opened Results
  import opened Bytes
  import opened EscrowLock

  datatype HashType = Data | Type | Data1 | Data2

  /** A normalized lock script. */
  datatype Script = Script(codeHash: Hash, hashType: HashType, args: seq<Byte>)

  datatype OutPoint = OutPoint(txHash: Hash, index: nat)

  datatype Output = Output(capacity: nat, lock: Script, data: seq<Byte>)

  /** An input with the cell it spends. */
  datatype Input = Input(outPoint: OutPoint, since: nat, cell: Output)

  datatype Spend = Spend(inputs: seq<Input>, outputs: seq<Output>)

  /** The hash tells these scripts apart; it cannot tell all scripts apart, being 32 bytes long. */
  ghost predicate Distinguishes(hash: Script -> Hash, scripts: set<Script>) {
    forall s, t | s in scripts && t in scripts && hash(s) == hash(t) :: s == t
  }

  function Locks(outputs: seq<Output>): set<Script> {
    set output | output in outputs :: output.lock
  }

  lemma {:induction false} Numbering(scripts: set<Script>) returns (numbers: map<Script, nat>)
    ensures numbers.Keys == scripts && forall s | s in scripts :: numbers[s] < |scripts|
    ensures forall s, t | s in scripts && t in scripts && numbers[s] == numbers[t] :: s == t
    decreases |scripts|
  {
    if s :| s in scripts {
      numbers := Numbering(scripts - {s});
      numbers := numbers[s := |scripts| - 1];
    } else {
      numbers := map[];
    }
  }

  function Numbered(n: nat): Hash {
    ToLe(n, 32)
  }

  /** Any scripts that one could ever list are told apart by some hash. */
  lemma DistinguishingHashExists(scripts: set<Script>)
    requires |scripts| <= Pow256(32)
    ensures exists hash: Script -> Hash :: Distinguishes(hash, scripts)
  {
    var numbers := Numbering(scripts);
    var hash: Script -> Hash := (s: Script) => Numbered(if s in numbers then numbers[s] else 0);
    forall s, t | s in scripts && t in scripts && hash(s) == hash(t) ensures s == t {
      LeRoundTrip(numbers[s], 32);
      LeRoundTrip(numbers[t], 32);
    }
    assert Distinguishes(hash, scripts);
  }

  // ---------------------------------------------------------------- the script's entry point

  function GroupInputs(inputs: seq<Input>, lock: Script): seq<Input> {
    if inputs == [] then []
    else (if inputs[0].cell.lock == lock then [inputs[0]] else []) + GroupInputs(inputs[1..], lock)
  }

  function SignersOf(hash: Script -> Hash, inputs: seq<Input>): seq<Hash> {
    if inputs == [] then [] else [hash(inputs[0].cell.lock)] + SignersOf(hash, inputs[1..])
  }

  function OutputCells(hash: Script -> Hash, outputs: seq<Output>): seq<OutputCell> {
    seq(|outputs|, i requires 0 <= i < |outputs| => OutputCell(hash(outputs[i].lock), outputs[i].capacity))
  }

  /** What the chain runs for the cells locked by this script; the way out is what the script allowed. */
  function Validate(hash: Script -> Hash, lock: Script, tx: Spend): Result<ResolutionPath, Error> {
    var parties :- ParsePartyHashes(lock.args);
    var group := GroupInputs(tx.inputs, lock);
    if group == [] then Err(MissingExpectedOutput)
    else
      var terms :- ParseTerms(group[0].cell.data);
      if |group| > 1 then Err(MultipleEscrowInputs)
      else EvaluateSpend(parties, terms, TxState(group[0].cell.capacity, group[0].since, SignersOf(hash, tx.inputs),
                                                 OutputCells(hash, tx.outputs)))
  }

  /** The script runs for one cell at a time, with 96 bytes of arguments and terms it can parse, and says what is wrong. */
  lemma ScriptRefuses(hash: Script -> Hash, lock: Script, tx: Spend)
    ensures var group, verdict := GroupInputs(tx.inputs, lock), Validate(hash, lock, tx);
            && (|lock.args| != 96 ==> verdict == Err(InvalidArgsLength))
            && (|lock.args| == 96 ==>
                  && (group == [] ==> verdict == Err(MissingExpectedOutput))
                  && (group != [] && ParseTerms(group[0].cell.data).Err? ==>
                        verdict == Err(ParseTerms(group[0].cell.data).error))
                  && (|group| > 1 && ParseTerms(group[0].cell.data).Ok? ==> verdict == Err(MultipleEscrowInputs)))
            && (verdict.Ok? ==> |lock.args| == 96 && |group| == 1 && ParseTerms(group[0].cell.data).Ok?)
  {
    hide ParseTerms, EvaluateSpend, GroupInputs;
  }

  // ---------------------------------------------------------------- what the reconciler verifies

  datatype Mismatch = FundingMismatch | FundingAmountMismatch | SettlementInputMismatch | SettlementOutputMismatch

  function VerifyFunding(tx: Spend, index: nat, lock: Script, data: seq<Byte>, amount: nat): Option<Mismatch> {
    if index >= |tx.outputs| || tx.outputs[index].lock != lock || tx.outputs[index].data != data then Some(FundingMismatch)
    else if tx.outputs[index].capacity != amount then Some(FundingAmountMismatch)
    else None
  }

  /** The funding is verified exactly if the output at that index is the escrow cell itself, amount included. */
  lemma FundingIsTheCell(tx: Spend, index: nat, lock: Script, data: seq<Byte>, amount: nat)
    ensures var verdict := VerifyFunding(tx, index, lock, data, amount);
            && (verdict == None <==> index < |tx.outputs| && tx.outputs[index] == Output(amount, lock, data))
            && (verdict == Some(FundingAmountMismatch) <==>
                  exists capacity :: capacity != amount && index < |tx.outputs|
                                     && tx.outputs[index] == Output(capacity, lock, data))
            && (verdict.Some? ==> verdict.value in {FundingMismatch, FundingAmountMismatch})
  {
    if index < |tx.outputs| {
      assert tx.outputs[index] == Output(tx.outputs[index].capacity, tx.outputs[index].lock, tx.outputs[index].data);
    }
  }

  function Spending(inputs: seq<Input>, cell: OutPoint): seq<Input> {
    if inputs == [] then []
    else (if inputs[0].outPoint == cell then [inputs[0]] else []) + Spending(inputs[1..], cell)
  }

  function Paying(outputs: seq<Output>, lock: Script, amount: nat): seq<Output> {
    if outputs == [] then []
    else (if outputs[0].lock == lock && outputs[0].capacity == amount then [outputs[0]] else [])
         + Paying(outputs[1..], lock, amount)
  }

  function VerifySettlement(tx: Spend, escrow: OutPoint, destination: Script, amount: nat): Option<Mismatch> {
    if |Spending(tx.inputs, escrow)| != 1 then Some(SettlementInputMismatch)
    else if |Paying(tx.outputs, destination, amount)| != 1 then Some(SettlementOutputMismatch)
    else None
  }

  /** The out points of the inputs. */
  function Spent(inputs: seq<Input>): multiset<OutPoint> {
    if inputs == [] then multiset{} else multiset{inputs[0].outPoint} + Spent(inputs[1..])
  }

  /** What the outputs pay to whom. */
  function Payments(outputs: seq<Output>): multiset<(Script, nat)> {
    if outputs == [] then multiset{} else multiset{(outputs[0].lock, outputs[0].capacity)} + Payments(outputs[1..])
  }

  lemma {:induction false} SpendingCounts(inputs: seq<Input>, cell: OutPoint)
    ensures |Spending(inputs, cell)| == Spent(inputs)[cell]
  {
    if inputs != [] {
      SpendingCounts(inputs[1..], cell);
    }
  }

  lemma {:induction false} PayingCounts(outputs: seq<Output>, lock: Script, amount: nat)
    ensures |Paying(outputs, lock, amount)| == Payments(outputs)[(lock, amount)]
  {
    if outputs != [] {
      PayingCounts(outputs[1..], lock, amount);
    }
  }

  /** A settlement is verified exactly if it spends the escrow cell once and pays the amount to the destination once. */
  lemma SettlementPaysOnce(tx: Spend, escrow: OutPoint, destination: Script, amount: nat)
    ensures VerifySettlement(tx, escrow, destination, amount)
            == if Spent(tx.inputs)[escrow] != 1 then Some(SettlementInputMismatch)
               else if Payments(tx.outputs)[(destination, amount)] != 1 then Some(SettlementOutputMismatch)
               else None
  {
    SpendingCounts(tx.inputs, escrow);
    PayingCounts(tx.outputs, destination, amount);
  }

  // ---------------------------------------------------------------- script and reconciler agree

  lemma FewerScripts(hash: Script -> Hash, scripts: set<Script>, some: set<Script>)
    requires Distinguishes(hash, scripts) && some <= scripts
    ensures Distinguishes(hash, some)
  {
  }

  /** Comparing lock hashes counts the same outputs as comparing lock scripts. */
  lemma {:induction false} SameCount(hash: Script -> Hash, outputs: seq<Output>, lock: Script, amount: nat)
    requires Distinguishes(hash, Locks(outputs) + {lock})
    ensures CountOutputs(OutputCells(hash, outputs), hash(lock), amount) == |Paying(outputs, lock, amount)|
  {
    if outputs != [] {
      assert Locks(outputs[1..]) <= Locks(outputs) && outputs[0].lock in Locks(outputs);
      SameCount(hash, outputs[1..], lock, amount);
      assert OutputCells(hash, outputs)[1..] == OutputCells(hash, outputs[1..]);
    }
  }

  lemma {:induction false} InGroup(inputs: seq<Input>, lock: Script, input: Input)
    requires input in inputs && input.cell.lock == lock
    ensures input in GroupInputs(inputs, lock)
  {
    if inputs[0] != input {
      InGroup(inputs[1..], lock, input);
    }
  }

  lemma {:induction false} SpentBy(inputs: seq<Input>, cell: OutPoint)
    requires |Spending(inputs, cell)| == 1
    ensures Spending(inputs, cell)[0] in inputs && Spending(inputs, cell)[0].outPoint == cell
  {
    if inputs[0].outPoint != cell {
      SpentBy(inputs[1..], cell);
    }
  }

  /** The funded escrow cell, as the funding was verified. */
  ghost predicate SpendsFunded(tx: Spend, escrow: OutPoint, lock: Script, amount: nat) {
    && |Spending(tx.inputs, escrow)| == 1
    && Spending(tx.inputs, escrow)[0].cell.lock == lock
    && Spending(tx.inputs, escrow)[0].cell.capacity == amount
  }

  /** The inputs that name an output of this transaction spend that output. */
  ghost predicate Resolves(tx: Spend, funding: Spend, escrow: OutPoint) {
    forall input | input in tx.inputs && input.outPoint == escrow ::
      escrow.index < |funding.outputs| && input.cell == funding.outputs[escrow.index]
  }

  /** Verifying the funding fixes the cell that is spent later: its lock, its data and its capacity. */
  lemma FundedCellIsSpent(tx: Spend, funding: Spend, escrow: OutPoint, lock: Script, data: seq<Byte>, amount: nat)
    requires VerifyFunding(funding, escrow.index, lock, data, amount) == None
    requires Resolves(tx, funding, escrow) && |Spending(tx.inputs, escrow)| == 1
    ensures SpendsFunded(tx, escrow, lock, amount) && Spending(tx.inputs, escrow)[0].cell.data == data
  {
    FundingIsTheCell(funding, escrow.index, lock, data, amount);
    SpentBy(tx.inputs, escrow);
  }

  /**
   Of the transactions that spend an escrow cell whose funding was verified,
   and that the script accepts, those that pay out are exactly the ones
   verified as a release, and those that refund exactly the ones verified as a
   refund.
   */
  lemma PathsAreVerified(hash: Script -> Hash, tx: Spend, funding: Spend, escrow: OutPoint, lock: Script, data: seq<Byte>,
                         amount: nat, client: Script, worker: Script, salt: Hash)
    requires Distinguishes(hash, Locks(tx.outputs) + {client, worker})
    requires lock.args == PartyBytes(PartyHashes(hash(client), hash(worker), salt))
    requires VerifyFunding(funding, escrow.index, lock, data, amount) == None && Resolves(tx, funding, escrow)
    requires Spent(tx.inputs)[escrow] == 1 && Validate(hash, lock, tx).Ok?
    ensures VerifySettlement(tx, escrow, worker, amount) == None <==> Validate(hash, lock, tx) == Ok(ClientPayout)
    ensures VerifySettlement(tx, escrow, client, amount) == None
            <==> Validate(hash, lock, tx).value in {WorkerRefund, TimeoutRefund}
    ensures VerifySettlement(tx, escrow, worker, amount) == None <==> VerifySettlement(tx, escrow, client, amount) != None
  {
    SpendingCounts(tx.inputs, escrow);
    FundedCellIsSpent(tx, funding, escrow, lock, data, amount);
    var terms := AcceptedSpend(hash, tx, escrow, lock, amount, PartyHashes(hash(client), hash(worker), salt));
    hide Distinguishes, Locks, Validate, SpendsFunded, Resolves, VerifyFunding, Spent;
    FewerScripts(hash, Locks(tx.outputs) + {client, worker}, Locks(tx.outputs) + {client});
    FewerScripts(hash, Locks(tx.outputs) + {client, worker}, Locks(tx.outputs) + {worker});
    SameCount(hash, tx.outputs, client, amount);
    SameCount(hash, tx.outputs, worker, amount);
    hide Spending, Paying, CountOutputs, OutputCells, SignersOf;
  }

  /** The script judges the funded cell alone, with the parties in its arguments. */
  lemma AcceptedSpend(hash: Script -> Hash, tx: Spend, escrow: OutPoint, lock: Script, amount: nat, parties: PartyHashes)
    returns (terms: EscrowTerms)
    requires lock.args == PartyBytes(parties) && SpendsFunded(tx, escrow, lock, amount) && Validate(hash, lock, tx).Ok?
    ensures Validate(hash, lock, tx)
            == EvaluateSpend(parties, terms, TxState(amount, Spending(tx.inputs, escrow)[0].since,
                                                     SignersOf(hash, tx.inputs), OutputCells(hash, tx.outputs)))
  {
    PartyHashesRoundTrip(parties, []);
    var input, group := Spending(tx.inputs, escrow)[0], GroupInputs(tx.inputs, lock);
    SpentBy(tx.inputs, escrow);
    InGroup(tx.inputs, lock, input);
    assert group == [input];
    terms := ParseTerms(input.cell.data).value;
    hide ParsePartyHashes, ParseTerms, GroupInputs, Spending, EvaluateSpend;
  }

  // ---------------------------------------------------------------- order

  lemma WithoutOne(outputs: seq<Output>, j: nat)
    requires j < |outputs|
    ensures multiset(outputs[..j] + outputs[j + 1..]) == multiset(outputs) - multiset{outputs[j]}
  {
    assert outputs == outputs[..j] + ([outputs[j]] + outputs[j + 1..]);
  }

  lemma SameRest(some: seq<Output>, other: seq<Output>, j: nat)
    requires some != [] && multiset(some) == multiset(other) && j < |other| && other[j] == some[0]
    ensures multiset(some[1..]) == multiset(other[..j] + other[j + 1..])
    ensures some[..0] + some[0 + 1..] == some[1..]
  {
    assert some[..0] + some[1..] == some[1..];
    WithoutOne(some, 0);
    WithoutOne(other, j);
  }

  lemma {:induction false} SameCells(hash: Script -> Hash, some: seq<Output>, other: seq<Output>)
    requires multiset(some) == multiset(other)
    ensures multiset(OutputCells(hash, some)) == multiset(OutputCells(hash, other))
  {
    if some == [] {
      assert |multiset(other)| == |other|;
    } else {
      hide OutputCells;
      assert some[0] in multiset(other);
      var j :| 0 <= j < |other| && other[j] == some[0];
      SameRest(some, other, j);
      SameCells(hash, some[1..], other[..j] + other[j + 1..]);
      CellsAround(hash, other, j);
      CellsAround(hash, some, 0);
    }
  }

  lemma {:induction false} CellsAppend(hash: Script -> Hash, some: seq<Output>, other: seq<Output>)
    ensures OutputCells(hash, some + other) == OutputCells(hash, some) + OutputCells(hash, other)
  {
  }

  lemma CellsAround(hash: Script -> Hash, outputs: seq<Output>, j: nat)
    requires j < |outputs|
    ensures multiset(OutputCells(hash, outputs))
            == multiset(OutputCells(hash, outputs[..j] + outputs[j + 1..]))
               + multiset([OutputCell(hash(outputs[j].lock), outputs[j].capacity)])
  {
    CellsAppend(hash, outputs[..j], [outputs[j]] + outputs[j + 1..]);
    CellsAppend(hash, [outputs[j]], outputs[j + 1..]);
    CellsAppend(hash, outputs[..j], outputs[j + 1..]);
    assert outputs == outputs[..j] + ([outputs[j]] + outputs[j + 1..]);
    assert OutputCells(hash, [outputs[j]]) == [OutputCell(hash(outputs[j].lock), outputs[j].capacity)];
    hide OutputCells;
  }

  lemma {:induction false} GroupIsPart(inputs: seq<Input>, lock: Script, input: Input)
    ensures multiset(GroupInputs(inputs, lock))[input] == if input.cell.lock == lock then multiset(inputs)[input] else 0
  {
    if inputs != [] {
      GroupIsPart(inputs[1..], lock, input);
      assert inputs == [inputs[0]] + inputs[1..];
    }
  }

  lemma SameGroup(inputs: seq<Input>, other: seq<Input>, lock: Script)
    requires multiset(inputs) == multiset(other) && |GroupInputs(inputs, lock)| == 1
    ensures GroupInputs(other, lock) == GroupInputs(inputs, lock)
  {
    var group, again := GroupInputs(inputs, lock), GroupInputs(other, lock);
    forall input ensures multiset(again)[input] == multiset(group)[input] {
      GroupIsPart(inputs, lock, input);
      GroupIsPart(other, lock, input);
    }
    assert multiset(again) == multiset(group);
    hide GroupInputs;
    SameSingle(group, again);
  }

  lemma SameSingle(one: seq<Input>, other: seq<Input>)
    requires multiset(one) == multiset(other) && |one| == 1
    ensures one == other
  {
    assert |multiset(one)| == 1 && |multiset(other)| == |other|;
    assert other[0] in multiset(other) && one == [one[0]];
  }

  lemma {:induction false} SignerIsInput(hash: Script -> Hash, inputs: seq<Input>, h: Hash)
    ensures h in SignersOf(hash, inputs) <==> exists input | input in inputs :: hash(input.cell.lock) == h
  {
    if inputs != [] {
      SignerIsInput(hash, inputs[1..], h);
      assert inputs == [inputs[0]] + inputs[1..];
    }
  }

  /** An accepted spend is accepted, for the same reason, in whatever order it lists its inputs and outputs. */
  lemma SpendOrderDoesNotMatter(hash: Script -> Hash, lock: Script, tx: Spend, other: Spend)
    requires multiset(tx.inputs) == multiset(other.inputs) && multiset(tx.outputs) == multiset(other.outputs)
    requires Validate(hash, lock, tx).Ok?
    ensures Validate(hash, lock, other) == Validate(hash, lock, tx)
  {
    SameGroup(tx.inputs, other.inputs, lock);
    SameCells(hash, tx.outputs, other.outputs);
    assert forall input :: input in tx.inputs <==> input in other.inputs by {
      assert forall input :: input in tx.inputs <==> input in multiset(tx.inputs);
      assert forall input :: input in other.inputs <==> input in multiset(other.inputs);
    }
    forall h: Hash ensures h in SignersOf(hash, tx.inputs) <==> h in SignersOf(hash, other.inputs) {
      SignerIsInput(hash, tx.inputs, h);
      SignerIsInput(hash, other.inputs, h);
    }
    hide ParsePartyHashes, ParseTerms, SignersOf, OutputCells, GroupInputs, EvaluateSpend;
    var input := GroupInputs(tx.inputs, lock)[0];
    OrderDoesNotMatter(
      ParsePartyHashes(lock.args).value, ParseTerms(input.cell.data).value,
      TxState(input.cell.capacity, input.since, SignersOf(hash, tx.inputs), OutputCells(hash, tx.outputs)),
      TxState(input.cell.capacity, input.since, SignersOf(hash, other.inputs), OutputCells(hash, other.outputs)));
  }
}
