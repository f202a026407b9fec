/** The lock script: what it parses, and which spends of an escrow cell it lets through. */
module EscrowLock {
  import opened Results
  import opened Bytes

  type Hash = h: seq<Byte> | |h| == 32 witness seq(32, _ => 0)
  type U32 = n: int | 0 <= n < 0x1_0000_0000
  type U64 = n: int | 0 <= n < 0x1_0000_0000_0000_0000

  const MAGIC: seq<Byte> := [0x50, 0x41, 0x43, 0x54, 0x45, 0x53, 0x43, 0x31]
  const VERSION: Byte := 1
  const DATA_LENGTH := 88

  /** A timeout at or above this is not an absolute block number. */
  const SINCE_LIMIT := 0x100_0000_0000_0000

  datatype Error =
    | InvalidArgsLength
    | InvalidCellDataLength
    | InvalidMagic
    | UnsupportedVersion
    | MissingRequiredSigner
    | MissingExpectedOutput
    | InvalidTimeoutSince
    | AmbiguousSettlementOutputs
    | MultipleEscrowInputs
    | NonCanonicalCellData

  datatype PartyHashes = PartyHashes(client: Hash, worker: Hash, agreementSalt: Hash)

  datatype EscrowTerms = EscrowTerms(version: Byte, milestoneIndex: U32, refundTimeoutSince: U64,
                                     agreementDigest: Hash, milestoneDigest: Hash)

  /** Capacities are 64-bit numbers on the chain; the script only compares them. */
  datatype OutputCell = OutputCell(lockHash: Hash, capacity: nat)

  datatype TxState = TxState(inputCapacity: nat, inputSince: nat, signers: seq<Hash>, outputs: seq<OutputCell>)

  datatype ResolutionPath = ClientPayout | WorkerRefund | TimeoutRefund

  // ---------------------------------------------------------------- parsing

  function ParsePartyHashes(args: seq<Byte>): Result<PartyHashes, Error> {
    if |args| != 96 then Err(InvalidArgsLength)
    else Ok(PartyHashes(args[0..32], args[32..64], args[64..96]))
  }

  function PartyBytes(parties: PartyHashes): seq<Byte> {
    parties.client + parties.worker + parties.agreementSalt
  }

  function U32At(data: seq<Byte>, at: nat): U32
    requires at + 4 <= |data|
  {
    FromLeBound(data[at..at + 4]);
    WidthBounds();
    FromLe(data[at..at + 4])
  }

  function U64At(data: seq<Byte>, at: nat): U64
    requires at + 8 <= |data|
  {
    FromLeBound(data[at..at + 8]);
    WidthBounds();
    FromLe(data[at..at + 8])
  }

  function ParseTerms(data: seq<Byte>): Result<EscrowTerms, Error> {
    if |data| != DATA_LENGTH then Err(InvalidCellDataLength)
    else if data[0..8] != MAGIC then Err(InvalidMagic)
    else if data[8] != VERSION then Err(UnsupportedVersion)
    else if data[9..12] != [0, 0, 0] then Err(NonCanonicalCellData)
    else if U64At(data, 16) >= SINCE_LIMIT then Err(InvalidTimeoutSince)
    else Ok(EscrowTerms(data[8], U32At(data, 12), U64At(data, 16), data[24..56], data[56..88]))
  }

  /** The cell data of terms, field by field. */
  function TermsBytes(terms: EscrowTerms): (data: seq<Byte>)
    ensures |data| == DATA_LENGTH
  {
    MAGIC + [terms.version] + [0, 0, 0] + ToLe(terms.milestoneIndex, 4) + ToLe(terms.refundTimeoutSince, 8)
    + terms.agreementDigest + terms.milestoneDigest
  }

  method CopyFromSlice(bytes: array<Byte>, at: nat, source: seq<Byte>)
    requires at + |source| <= bytes.Length
    modifies bytes
    ensures bytes[..] == old(bytes[..at]) + source + old(bytes[at + |source|..])
  {
    for i := 0 to |source|
      invariant bytes[..at] == old(bytes[..at])
      invariant bytes[at..at + i] == source[..i]
      invariant bytes[at + i..] == old(bytes[at + i..])
    {
      bytes[at + i] := source[i];
      assert bytes[at + i + 1..] == old(bytes[at + i..])[1..];
    }
    assert bytes[..] == bytes[..at] + bytes[at..at + |source|] + bytes[at + |source|..];
  }

  function Zeros(n: nat): (zeros: seq<Byte>)
    ensures |zeros| == n
  {
    seq(n, _ => 0)
  }

  /** Filling in the next field behind what is written already. */
  lemma FilledNext(head: seq<Byte>, field: seq<Byte>, rest: nat)
    requires |field| <= rest
    ensures var before := head + Zeros(rest);
            before[..|head|] + field + before[|head| + |field|..] == (head + field) + Zeros(rest - |field|)
    ensures head + Zeros(0) == head
  {
  }

  method SerializeTerms(terms: EscrowTerms) returns (bytes: array<Byte>)
    ensures fresh(bytes) && bytes[..] == TermsBytes(terms)
  {
    bytes := new Byte[88](_ => 0);
    CopyFromSlice(bytes, 0, MAGIC);
    bytes[8] := terms.version;
    hide ToLe;
    ghost var head := MAGIC + [terms.version] + [0, 0, 0];
    assert bytes[..] == head + Zeros(76);
    CopyFromSlice(bytes, 12, ToLe(terms.milestoneIndex, 4));
    FilledNext(head, ToLe(terms.milestoneIndex, 4), 76);
    head := head + ToLe(terms.milestoneIndex, 4);
    CopyFromSlice(bytes, 16, ToLe(terms.refundTimeoutSince, 8));
    FilledNext(head, ToLe(terms.refundTimeoutSince, 8), 72);
    head := head + ToLe(terms.refundTimeoutSince, 8);
    CopyFromSlice(bytes, 24, terms.agreementDigest);
    FilledNext(head, terms.agreementDigest, 64);
    head := head + terms.agreementDigest;
    CopyFromSlice(bytes, 56, terms.milestoneDigest);
    FilledNext(head, terms.milestoneDigest, 32);
  }

  // ---------------------------------------------------------------- spending

  function CountOutputs(outputs: seq<OutputCell>, target: Hash, capacity: nat): nat {
    if outputs == [] then 0
    else
      (if outputs[0].lockHash == target && outputs[0].capacity == capacity then 1 else 0)
      + CountOutputs(outputs[1..], target, capacity)
  }

  function HasExactOutput(outputs: seq<OutputCell>, target: Hash, capacity: nat): Result<bool, Error> {
    if CountOutputs(outputs, target, capacity) > 1 then Err(AmbiguousSettlementOutputs)
    else Ok(CountOutputs(outputs, target, capacity) == 1)
  }

  predicate TimeoutRefundReached(current: nat, required: nat) {
    current < SINCE_LIMIT && required <= current
  }

  function EvaluateSpend(parties: PartyHashes, terms: EscrowTerms, tx: TxState): Result<ResolutionPath, Error> {
    var clientAuth, workerAuth := parties.client in tx.signers, parties.worker in tx.signers;
    var workerOutput :- HasExactOutput(tx.outputs, parties.worker, tx.inputCapacity);
    var clientOutput :- HasExactOutput(tx.outputs, parties.client, tx.inputCapacity);
    if workerOutput && clientOutput then Err(AmbiguousSettlementOutputs)
    else if workerOutput && clientAuth then Ok(ClientPayout)
    else if clientOutput && workerAuth then Ok(WorkerRefund)
    else if clientOutput && TimeoutRefundReached(tx.inputSince, terms.refundTimeoutSince) then Ok(TimeoutRefund)
    else if !clientAuth && !workerAuth then Err(MissingRequiredSigner)
    else Err(MissingExpectedOutput)
  }

  lemma {:induction false} CountIsMultiplicity(outputs: seq<OutputCell>, target: Hash, capacity: nat)
    ensures CountOutputs(outputs, target, capacity) == multiset(outputs)[OutputCell(target, capacity)]
  {
    if outputs != [] {
      CountIsMultiplicity(outputs[1..], target, capacity);
      assert outputs == [outputs[0]] + outputs[1..];
    }
  }

  /** The order in which a transaction lists its outputs and its signers does not matter. */
  lemma OrderDoesNotMatter(parties: PartyHashes, terms: EscrowTerms, tx: TxState, other: TxState)
    requires multiset(tx.outputs) == multiset(other.outputs)
    requires forall h: Hash :: h in tx.signers <==> h in other.signers
    requires tx.inputCapacity == other.inputCapacity && tx.inputSince == other.inputSince
    ensures EvaluateSpend(parties, terms, tx) == EvaluateSpend(parties, terms, other)
  {
    CountIsMultiplicity(tx.outputs, parties.worker, tx.inputCapacity);
    CountIsMultiplicity(tx.outputs, parties.client, tx.inputCapacity);
    CountIsMultiplicity(other.outputs, parties.worker, tx.inputCapacity);
    CountIsMultiplicity(other.outputs, parties.client, tx.inputCapacity);
  }

  /** How many outputs pay exactly the escrowed capacity to this lock. */
  function Paid(tx: TxState, lockHash: Hash): nat {
    multiset(tx.outputs)[OutputCell(lockHash, tx.inputCapacity)]
  }

  /**
   Each way out pays exactly one party exactly once, and only with the other
   party's consent or the timeout; every other spend is refused for what it lacks.
   */
  lemma EachPathPaysOneParty(parties: PartyHashes, terms: EscrowTerms, tx: TxState)
    ensures var path := EvaluateSpend(parties, terms, tx);
            var toWorker := Paid(tx, parties.worker) == 1 && Paid(tx, parties.client) == 0;
            var toClient := Paid(tx, parties.client) == 1 && Paid(tx, parties.worker) == 0;
            && (path == Ok(ClientPayout) <==> toWorker && parties.client in tx.signers)
            && (path == Ok(WorkerRefund) <==> toClient && parties.worker in tx.signers)
            && (path == Ok(TimeoutRefund) <==>
                  toClient && parties.worker !in tx.signers
                  && terms.refundTimeoutSince <= tx.inputSince < SINCE_LIMIT)
            && (path == Err(AmbiguousSettlementOutputs) <==>
                  Paid(tx, parties.worker) + Paid(tx, parties.client) > 1)
            && (path == Err(MissingRequiredSigner) <==>
                  && Paid(tx, parties.worker) + Paid(tx, parties.client) <= 1
                  && parties.client !in tx.signers && parties.worker !in tx.signers
                  && !(toClient && terms.refundTimeoutSince <= tx.inputSince < SINCE_LIMIT))
            && (path.Err? ==> path.error in {AmbiguousSettlementOutputs, MissingRequiredSigner, MissingExpectedOutput})
  {
    CountIsMultiplicity(tx.outputs, parties.worker, tx.inputCapacity);
    CountIsMultiplicity(tx.outputs, parties.client, tx.inputCapacity);
  }

  // ---------------------------------------------------------------- round trips

  lemma TermsBytesParts(terms: EscrowTerms)
    ensures var data := TermsBytes(terms);
            && data[0..8] == MAGIC && data[8] == terms.version && data[9..12] == [0, 0, 0]
            && data[12..16] == ToLe(terms.milestoneIndex, 4) && data[16..24] == ToLe(terms.refundTimeoutSince, 8)
            && data[24..56] == terms.agreementDigest && data[56..88] == terms.milestoneDigest
  {
  }

  /** The script reads back the terms it is given exactly when it knows their version and their timeout is a block. */
  lemma SerializedTermsParse(terms: EscrowTerms)
    ensures ParseTerms(TermsBytes(terms)) == Ok(terms)
            <==> terms.version == VERSION && terms.refundTimeoutSince < SINCE_LIMIT
  {
    TermsBytesParts(terms);
    WidthBounds();
    LeRoundTrip(terms.milestoneIndex, 4);
    LeRoundTrip(terms.refundTimeoutSince, 8);
    hide TermsBytes, ToLe, FromLe;
  }

  lemma CutAndJoin(data: seq<Byte>)
    requires |data| == 88
    ensures data == data[0..8] + [data[8]] + data[9..12] + data[12..16] + data[16..24] + data[24..56] + data[56..88]
  {
  }

  /** Accepted cell data has only one form. */
  lemma ParsedTermsSerialize(data: seq<Byte>)
    requires ParseTerms(data).Ok?
    ensures TermsBytes(ParseTerms(data).value) == data
  {
    LeRoundTripBack(data[12..16]);
    LeRoundTripBack(data[16..24]);
    CutAndJoin(data);
    hide ToLe, FromLe;
  }

  lemma PartyHashesRoundTrip(parties: PartyHashes, args: seq<Byte>)
    ensures ParsePartyHashes(PartyBytes(parties)) == Ok(parties)
    ensures ParsePartyHashes(args).Ok? ==> PartyBytes(ParsePartyHashes(args).value) == args
  {
    var bytes := PartyBytes(parties);
    assert bytes[0..32] == parties.client && bytes[32..64] == parties.worker && bytes[64..96] == parties.agreementSalt;
    if |args| == 96 {
      assert args[0..32] + args[32..64] + args[64..96] == args;
    }
  }
}
