/** The commitments and settlement intents the service makes, and the transactions its signer builds for them. */
module CkbSigner {
  import opened Results
  import opened Bytes
  import opened EscrowLock
  import opened CkbSettlement
  import Amounts
  import Ledger
  import Codec = EscrowCodec

  const SHANNONS: nat := 100_000_000
  const MINIMUM_CHANGE: nat := 61 * SHANNONS

  datatype SignerError = InsufficientCapacity | SignerMismatch | InvalidSince | InvalidAmount | AmountTooLow | BadTerms

  // ---------------------------------------------------------------- collecting capacity

  /** A live cell the indexer returns; plain cells have no type script and no data. */
  datatype Cell = Cell(outPoint: OutPoint, output: Output, typed: bool) {
    predicate Plain() {
      !typed && output.data == []
    }
  }

  datatype Page = Page(objects: seq<Cell>, lastCursor: Option<string>)

  function PlainCells(cells: seq<Cell>): seq<Cell> {
    if cells == [] then []
    else PlainCells(cells[..|cells| - 1]) + (if cells[|cells| - 1].Plain() then [cells[|cells| - 1]] else [])
  }

  function Capacity(cells: seq<Cell>): nat {
    if cells == [] then 0 else Capacity(cells[..|cells| - 1]) + cells[|cells| - 1].output.capacity
  }

  /** The indexer's answers in the order it is asked; after the last page it has nothing more. */
  function PageAt(pages: seq<Page>, i: nat): Page {
    if i < |pages| then pages[i] else Page([], None)
  }

  predicate LastPage(page: Page, cursor: Option<string>) {
    page.lastCursor == None || page.lastCursor == cursor || page.objects == []
  }

  /** The plain cells the collector reads from page `i` on, having read so many before. */
  function Stream(pages: seq<Page>, i: nat, cursor: Option<string>, taken: nat): seq<Cell>
    decreases |pages| - i
  {
    var page := PageAt(pages, i);
    var plain := PlainCells(page.objects);
    if i >= |pages| || LastPage(page, cursor) || taken + |plain| >= 1000 then plain
    else plain + Stream(pages, i + 1, page.lastCursor, taken + |plain|)
  }

  /** No prefix of the cells reaches the required capacity. */
  predicate Short(cells: seq<Cell>, required: nat) {
    forall k | 0 < k <= |cells| :: Capacity(cells[..k]) < required
  }

  /** A shortest prefix of the stream that reaches the required capacity. */
  predicate ShortestCover(cells: seq<Cell>, stream: seq<Cell>, required: nat) {
    cells <= stream && cells != [] && Short(cells[..|cells| - 1], required) && required <= Capacity(cells)
  }

  lemma OneMoreCell(cells: seq<Cell>, cell: Cell, required: nat)
    requires Short(cells, required)
    ensures Capacity(cells + [cell]) == Capacity(cells) + cell.output.capacity
    ensures (cells + [cell])[..|cells|] == cells
    ensures Capacity(cells + [cell]) < required ==> Short(cells + [cell], required)
  {
    var all := cells + [cell];
    assert all[..|cells|] == cells && all[..|all|] == all;
    assert forall k | 0 < k <= |cells| :: all[..k] == cells[..k];
  }

  lemma OneMoreObject(objects: seq<Cell>, j: nat)
    requires j < |objects|
    ensures PlainCells(objects[..j + 1])
            == PlainCells(objects[..j]) + (if objects[j].Plain() then [objects[j]] else [])
  {
    assert objects[..j + 1][..j] == objects[..j];
  }

  /** Adds the plain cells of a page until the required capacity is reached. */
  method ReadPage(before: seq<Cell>, held: nat, page: Page, required: nat)
    returns (cells: seq<Cell>, capacity: nat, done: bool)
    requires held == Capacity(before) && Short(before, required)
    ensures capacity == Capacity(cells)
    ensures done ==> ShortestCover(cells, before + PlainCells(page.objects), required)
    ensures !done ==> cells == before + PlainCells(page.objects) && Short(cells, required)
  {
    hide Capacity, Short, PlainCells;
    cells, capacity := before, held;
    assert PlainCells(page.objects[..0]) == [] by { NoPlainCells(page.objects); }
    for j := 0 to |page.objects|
      invariant cells == before + PlainCells(page.objects[..j])
      invariant capacity == Capacity(cells) && Short(cells, required)
    {
      var cell := page.objects[j];
      OneMoreObject(page.objects, j);
      if cell.typed || cell.output.data != [] {
        continue;
      }
      OneMoreCell(cells, cell, required);
      assert (before + PlainCells(page.objects[..j])) + [cell] == before + PlainCells(page.objects[..j + 1]);
      cells := cells + [cell];
      capacity := capacity + cell.output.capacity;
      if capacity >= required {
        PlainPrefix(page.objects, j + 1);
        return cells, capacity, true;
      }
    }
    assert page.objects[..|page.objects|] == page.objects;
    done := false;
  }

  lemma NoPlainCells(objects: seq<Cell>)
    ensures PlainCells(objects[..0]) == []
  {
  }

  /** Asks for page after page; the pages stand for the indexer's answers. */
  method CollectCapacity(pages: seq<Page>, required: nat) returns (selected: Result<seq<Cell>, SignerError>)
    ensures selected.Ok? ==> ShortestCover(selected.value, Stream(pages, 0, None, 0), required)
    ensures selected.Err? ==> selected.error == InsufficientCapacity && Short(Stream(pages, 0, None, 0), required)
  {
    hide Capacity, Short, PlainCells, Stream;
    var cells: seq<Cell>, capacity: nat, cursor: Option<string>, i := [], 0, None, 0;
    NothingIsShort(required);
    assert [] + Stream(pages, 0, None, 0) == Stream(pages, 0, None, 0);
    while true
      invariant i <= |pages|
      invariant capacity == Capacity(cells) && Short(cells, required)
      invariant Stream(pages, 0, None, 0) == cells + Stream(pages, i, cursor, |cells|)
      decreases |pages| - i
    {
      var page := PageAt(pages, i);
      StreamGoesOn(pages, i, cursor, cells);
      var done;
      cells, capacity, done := ReadPage(cells, capacity, page, required);
      if done {
        return Ok(cells);
      }
      if page.lastCursor == None || page.lastCursor == cursor || |page.objects| == 0 {
        break;
      }
      if |cells| >= 1000 {
        break;
      }
      cursor := page.lastCursor;
      i := i + 1;
    }
    selected := Err(InsufficientCapacity);
  }

  lemma NothingIsShort(required: nat)
    ensures Capacity([]) == 0 && Short([], required)
  {
  }

  /** The plain cells of a page come next in the stream, and after them the next page, if it is asked for. */
  lemma StreamGoesOn(pages: seq<Page>, i: nat, cursor: Option<string>, before: seq<Cell>)
    requires i <= |pages|
    ensures var page := PageAt(pages, i);
            var after := before + PlainCells(page.objects);
            && after <= before + Stream(pages, i, cursor, |before|)
            && (LastPage(page, cursor) || |after| >= 1000 ==> before + Stream(pages, i, cursor, |before|) == after)
            && (!LastPage(page, cursor) && |after| < 1000 ==>
                  i < |pages|
                  && before + Stream(pages, i, cursor, |before|)
                     == after + Stream(pages, i + 1, page.lastCursor, |after|))
  {
    hide PlainCells, Short, Capacity;
  }

  lemma {:induction false} PlainPrefix(cells: seq<Cell>, j: nat)
    requires j <= |cells|
    ensures PlainCells(cells[..j]) <= PlainCells(cells)
    decreases |cells| - j
  {
    if j < |cells| {
      PlainPrefix(cells, j + 1);
      assert cells[..j + 1][..j] == cells[..j];
    } else {
      assert cells[..j] == cells;
    }
  }

  // ---------------------------------------------------------------- building transactions

  function InputTotal(inputs: seq<Input>): nat {
    if inputs == [] then 0 else InputTotal(inputs[..|inputs| - 1]) + inputs[|inputs| - 1].cell.capacity
  }

  function OutputTotal(outputs: seq<Output>): nat {
    if outputs == [] then 0 else OutputTotal(outputs[..|outputs| - 1]) + outputs[|outputs| - 1].capacity
  }

  function InputsOf(cells: seq<Cell>): seq<Input> {
    if cells == [] then []
    else InputsOf(cells[..|cells| - 1]) + [Input(cells[|cells| - 1].outPoint, 0, cells[|cells| - 1].output)]
  }

  /** The change is what the inputs hold beyond the fixed output and the fee, and must pay for its own cell. */
  function WithChange(inputs: seq<Input>, fixed: Output, changeLock: Script, inputCapacity: nat, fee: nat, occupiedSize: nat)
    : Result<Spend, SignerError>
  {
    var change := inputCapacity - fixed.capacity - fee;
    if change < occupiedSize * SHANNONS then Err(InsufficientCapacity)
    else Ok(Spend(inputs, [fixed, Output(change, changeLock, [])]))
  }

  datatype Intent = Intent(escrow: OutPoint, amount: nat, destination: Script, authorizer: Script, since: nat)

  /** The cells that a settlement pays its fee and its change from. */
  ghost predicate PaysFrom(cells: seq<Cell>, pages: seq<Page>, feeRate: nat) {
    ShortestCover(cells, Stream(pages, 0, None, 0), 6_100_000_000 + 10 * feeRate)
  }

  /** The stream is too short, or what is selected from it does not pay for the fee and the change's own cell. */
  ghost predicate CannotPay(pages: seq<Page>, feeRate: nat, fee: nat, occupiedSize: nat) {
    || Short(Stream(pages, 0, None, 0), 6_100_000_000 + 10 * feeRate)
    || exists cells :: PaysFrom(cells, pages, feeRate) && Capacity(cells) < occupiedSize * SHANNONS + fee
  }

  lemma SelectionDecides(cells: seq<Cell>, pages: seq<Page>, feeRate: nat, fee: nat, occupiedSize: nat)
    requires PaysFrom(cells, pages, feeRate)
    ensures CannotPay(pages, feeRate, fee, occupiedSize) <==> Capacity(cells) < occupiedSize * SHANNONS + fee
  {
    OnlyCover(cells, Stream(pages, 0, None, 0), MINIMUM_CHANGE + 10 * feeRate);
    hide Short, ShortestCover, Capacity, Stream;
  }

  /** The fee is whatever the estimate says; the escrow cell is the one the out point names. */
  method SignSettlement(intent: Intent, escrowCell: Output, signerLock: Script, pages: seq<Page>, feeRate: nat,
                        fee: nat, occupiedSize: nat)
    returns (signed: Result<Spend, SignerError>)
    ensures signerLock != intent.authorizer ==> signed == Err(SignerMismatch)
    ensures signerLock == intent.authorizer ==>
              (signed.Err? <==> CannotPay(pages, feeRate, fee, occupiedSize))
              && (signed.Err? ==> signed.error == InsufficientCapacity)
    ensures signed.Ok? ==> exists cells ::
              && PaysFrom(cells, pages, feeRate) && occupiedSize * SHANNONS + fee <= Capacity(cells)
              && signed.value == SettlementOf(intent, escrowCell, cells, fee)
  {
    if signerLock != intent.authorizer {
      return Err(SignerMismatch);
    }
    var selected := CollectCapacity(pages, MINIMUM_CHANGE + 10 * feeRate);
    if selected.Err? {
      return Err(selected.error);
    }
    var cells := selected.value;
    SelectionDecides(cells, pages, feeRate, fee, occupiedSize);
    hide CannotPay, PaysFrom, ShortestCover, Short, Capacity, Stream, InputsOf;
    var capacity := SumCapacity(cells);
    signed := WithChange([Input(intent.escrow, intent.since, escrowCell)] + InputsOf(cells),
                         Output(intent.amount, intent.destination, []), signerLock, intent.amount + capacity, fee,
                         occupiedSize);
  }

  /** A stream that has a shortest cover has no other, and is not short. */
  lemma OnlyCover(cells: seq<Cell>, stream: seq<Cell>, required: nat)
    requires ShortestCover(cells, stream, required)
    ensures !Short(stream, required)
    ensures forall other | ShortestCover(other, stream, required) :: other == cells
  {
    assert stream[..|cells|] == cells;
    forall other | ShortestCover(other, stream, required) ensures other == cells {
      assert stream[..|other|] == other;
      assert |other| <= |cells| ==> cells[..|other|] == other;
      assert |cells| <= |other| ==> other[..|cells|] == cells;
      if |other| < |cells| {
        BeforeCover(cells, |other|, required);
      } else if |cells| < |other| {
        BeforeCover(other, |cells|, required);
      }
    }
  }

  lemma BeforeCover(cells: seq<Cell>, k: nat, required: nat)
    requires 0 < k < |cells| && Short(cells[..|cells| - 1], required)
    ensures Capacity(cells[..k]) < required
  {
    assert cells[..|cells| - 1][..k] == cells[..k];
  }

  method SumCapacity(cells: seq<Cell>) returns (capacity: nat)
    ensures capacity == Capacity(cells)
  {
    capacity := 0;
    for i := 0 to |cells|
      invariant capacity == Capacity(cells[..i])
    {
      assert cells[..i + 1][..i] == cells[..i];
      capacity := capacity + cells[i].output.capacity;
    }
    assert cells[..|cells|] == cells;
  }

  function SettlementOf(intent: Intent, escrowCell: Output, cells: seq<Cell>, fee: nat): Spend {
    var change := Capacity(cells) - fee;
    Spend([Input(intent.escrow, intent.since, escrowCell)] + InputsOf(cells),
          [Output(intent.amount, intent.destination, []),
           Output(if change < 0 then 0 else change, intent.authorizer, [])])
  }

  lemma {:induction false} InputsHoldCapacity(cells: seq<Cell>)
    ensures InputTotal(InputsOf(cells)) == Capacity(cells) && |InputsOf(cells)| == |cells|
  {
    if cells != [] {
      InputsHoldCapacity(cells[..|cells| - 1]);
      var last := Input(cells[|cells| - 1].outPoint, 0, cells[|cells| - 1].output);
      assert (InputsOf(cells[..|cells| - 1]) + [last])[..|cells| - 1] == InputsOf(cells[..|cells| - 1]);
    }
  }

  lemma {:induction false} InputTotalPrepend(first: Input, rest: seq<Input>)
    ensures InputTotal([first] + rest) == first.cell.capacity + InputTotal(rest)
  {
    if rest != [] {
      InputTotalPrepend(first, rest[..|rest| - 1]);
      assert ([first] + rest)[..|rest|] == [first] + rest[..|rest| - 1];
    } else {
      assert [first] + rest == [first] && [first][..0] == [];
    }
  }

  /** Nothing is created or lost but the fee. */
  lemma SettlementBalances(intent: Intent, escrowCell: Output, cells: seq<Cell>, fee: nat)
    requires escrowCell.capacity == intent.amount && fee <= Capacity(cells)
    ensures var tx := SettlementOf(intent, escrowCell, cells, fee);
            InputTotal(tx.inputs) == OutputTotal(tx.outputs) + fee
  {
    var tx := SettlementOf(intent, escrowCell, cells, fee);
    InputTotalPrepend(Input(intent.escrow, intent.since, escrowCell), InputsOf(cells));
    InputsHoldCapacity(cells);
    assert tx.outputs[..1] == [tx.outputs[0]] && tx.outputs[..1][..0] == [];
    assert OutputTotal([tx.outputs[0]]) == intent.amount;
  }

  // ---------------------------------------------------------------- the script accepts what the signer builds

  lemma {:induction false} FeeInputsStayOut(cells: seq<Cell>, lock: Script, signer: Script, escrow: OutPoint)
    requires signer != lock && forall c | c in cells :: c.output.lock == signer && c.outPoint != escrow
    ensures forall input | input in InputsOf(cells) :: input.cell.lock == signer && input.outPoint != escrow
  {
    if cells != [] {
      FeeInputsStayOut(cells[..|cells| - 1], lock, signer, escrow);
    }
  }

  lemma {:induction false} NotInGroup(inputs: seq<Input>, lock: Script)
    requires forall input | input in inputs :: input.cell.lock != lock
    ensures GroupInputs(inputs, lock) == []
  {
    if inputs != [] {
      NotInGroup(inputs[1..], lock);
    }
  }

  lemma TwoOutputs(hash: Script -> Hash, pay: Output, change: Output, target: Hash, amount: nat)
    ensures CountOutputs(OutputCells(hash, [pay, change]), target, amount)
            == (if hash(pay.lock) == target && pay.capacity == amount then 1 else 0)
               + (if hash(change.lock) == target && change.capacity == amount then 1 else 0)
  {
    var first, second := OutputCell(hash(pay.lock), pay.capacity), OutputCell(hash(change.lock), change.capacity);
    assert OutputCells(hash, [pay, change]) == [first, second];
    assert [first, second][1..] == [second] && [second][1..] == [];
    assert CountOutputs([second], target, amount)
           == (if second.lockHash == target && second.capacity == amount then 1 else 0) + CountOutputs([], target, amount);
  }

  /** A release pays the worker on the client's authority, a refund the client on the worker's. */
  ghost predicate Settles(intent: Intent, client: Script, worker: Script, path: ResolutionPath) {
    || (path == ClientPayout && intent.destination == worker && intent.authorizer == client)
    || (path == WorkerRefund && intent.destination == client && intent.authorizer == worker)
  }

  /**
   The script lets a settlement out, the way it was meant, exactly when client
   and worker have different locks and the change is not mistaken for the
   settled amount; otherwise it finds the outputs ambiguous.
   */
  lemma ScriptAcceptsSettlement(hash: Script -> Hash, intent: Intent, escrowCell: Output, cells: seq<Cell>, fee: nat,
                                client: Script, worker: Script, salt: Hash, path: ResolutionPath)
    requires Distinguishes(hash, {client, worker}) && Settles(intent, client, worker, path)
    requires escrowCell.lock.args == PartyBytes(PartyHashes(hash(client), hash(worker), salt))
    requires escrowCell.capacity == intent.amount && ParseTerms(escrowCell.data).Ok?
    requires cells != [] && fee <= Capacity(cells) && intent.authorizer != escrowCell.lock
    requires forall c | c in cells :: c.output.lock == intent.authorizer && c.outPoint != intent.escrow
    ensures Validate(hash, escrowCell.lock, SettlementOf(intent, escrowCell, cells, fee))
            == if client != worker && Capacity(cells) - fee != intent.amount then Ok(path)
               else Err(AmbiguousSettlementOutputs)
  {
    var tx, parties := SettlementOf(intent, escrowCell, cells, fee), PartyHashes(hash(client), hash(worker), salt);
    ScriptSees(hash, intent, escrowCell, cells, fee, parties);
    SettlementPays(hash, intent, escrowCell, cells, fee, hash(client));
    SettlementPays(hash, intent, escrowCell, cells, fee, hash(worker));
    SettlementGroup(hash, intent, escrowCell, cells, fee);
    hide Validate, Distinguishes, PartyBytes, ParseTerms, GroupInputs, SignersOf, OutputCells, CountOutputs, InputsOf,
         Capacity, EvaluateSpend, SettlementOf;
    SettlementVerdict(hash, intent, ParseTerms(escrowCell.data).value, Capacity(cells) - fee, client, worker, salt, path,
                      TxState(intent.amount, intent.since, SignersOf(hash, tx.inputs), OutputCells(hash, tx.outputs)));
  }

  lemma ScriptSees(hash: Script -> Hash, intent: Intent, escrowCell: Output, cells: seq<Cell>, fee: nat, parties: PartyHashes)
    requires escrowCell.lock.args == PartyBytes(parties) && ParseTerms(escrowCell.data).Ok?
    requires cells != [] && intent.authorizer != escrowCell.lock && escrowCell.capacity == intent.amount
    requires forall c | c in cells :: c.output.lock == intent.authorizer && c.outPoint != intent.escrow
    ensures var tx := SettlementOf(intent, escrowCell, cells, fee);
            Validate(hash, escrowCell.lock, tx)
            == EvaluateSpend(parties, ParseTerms(escrowCell.data).value,
                             TxState(intent.amount, intent.since, SignersOf(hash, tx.inputs), OutputCells(hash, tx.outputs)))
  {
    SettlementGroup(hash, intent, escrowCell, cells, fee);
    PartyHashesRoundTrip(parties, []);
    hide GroupInputs, SignersOf, OutputCells, ParseTerms, ParsePartyHashes, InputsOf, EvaluateSpend, SettlementOf, PartyBytes;
  }

  lemma SettlementPays(hash: Script -> Hash, intent: Intent, escrowCell: Output, cells: seq<Cell>, fee: nat, target: Hash)
    requires fee <= Capacity(cells)
    ensures CountOutputs(OutputCells(hash, SettlementOf(intent, escrowCell, cells, fee).outputs), target, intent.amount)
            == (if hash(intent.destination) == target then 1 else 0)
               + (if hash(intent.authorizer) == target && Capacity(cells) - fee == intent.amount then 1 else 0)
  {
    var tx := SettlementOf(intent, escrowCell, cells, fee);
    hide Capacity, InputsOf, CountOutputs, OutputCells;
    TwoOutputs(hash, tx.outputs[0], tx.outputs[1], target, intent.amount);
    assert tx.outputs == [tx.outputs[0], tx.outputs[1]];
  }

  lemma SettlementVerdict(hash: Script -> Hash, intent: Intent, terms: EscrowTerms, change: nat, client: Script,
                          worker: Script, salt: Hash, path: ResolutionPath, state: TxState)
    requires Distinguishes(hash, {client, worker}) && Settles(intent, client, worker, path)
    requires hash(intent.authorizer) in state.signers && state.inputCapacity == intent.amount
    requires CountOutputs(state.outputs, hash(client), intent.amount)
             == (if hash(intent.destination) == hash(client) then 1 else 0)
                + (if hash(intent.authorizer) == hash(client) && change == intent.amount then 1 else 0)
    requires CountOutputs(state.outputs, hash(worker), intent.amount)
             == (if hash(intent.destination) == hash(worker) then 1 else 0)
                + (if hash(intent.authorizer) == hash(worker) && change == intent.amount then 1 else 0)
    ensures EvaluateSpend(PartyHashes(hash(client), hash(worker), salt), terms, state)
            == if client != worker && change != intent.amount then Ok(path) else Err(AmbiguousSettlementOutputs)
  {
    hide CountOutputs;
  }

  /** Of the inputs only the escrow cell is locked by the script, and the authorizer is among the signers. */
  lemma SettlementGroup(hash: Script -> Hash, intent: Intent, escrowCell: Output, cells: seq<Cell>, fee: nat)
    requires cells != [] && intent.authorizer != escrowCell.lock
    requires forall c | c in cells :: c.output.lock == intent.authorizer && c.outPoint != intent.escrow
    ensures var tx := SettlementOf(intent, escrowCell, cells, fee);
            && GroupInputs(tx.inputs, escrowCell.lock) == [Input(intent.escrow, intent.since, escrowCell)]
            && hash(intent.authorizer) in SignersOf(hash, tx.inputs)
  {
    var tx := SettlementOf(intent, escrowCell, cells, fee);
    FeeInputsStayOut(cells, escrowCell.lock, intent.authorizer, intent.escrow);
    NotInGroup(InputsOf(cells), escrowCell.lock);
    assert tx.inputs[1..] == InputsOf(cells);
    InputsHoldCapacity(cells);
    SignerIsInput(hash, tx.inputs, hash(intent.authorizer));
    assert InputsOf(cells)[0] in tx.inputs;
  }

  // ---------------------------------------------------------------- commitments

  function ParseRefundTimeoutSince(text: string): Result<nat, SignerError> {
    if text != "0" && !Amounts.IsPositiveIntegerAmount(text) then Err(InvalidSince)
    else if text == "0" then Ok(0)
    else if Amounts.ValueOf(text) >= SINCE_LIMIT then Err(InvalidSince)
    else Ok(Amounts.ValueOf(text))
  }

  /** A timeout is accepted exactly as the canonical decimal of a block number, and denotes that number. */
  lemma TimeoutsAreCanonical(text: string, n: nat)
    ensures ParseRefundTimeoutSince(text) == Ok(n) <==> n < SINCE_LIMIT && text == Amounts.Print(n)
    ensures ParseRefundTimeoutSince(text).Err? ==> ParseRefundTimeoutSince(text).error == InvalidSince
  {
    Amounts.PrintIsCanonical(n);
    assert Amounts.Print(0) == "0";
    if Amounts.IsPositiveIntegerAmount(text) {
      Amounts.ValueIsPrinted(text);
    }
  }

  function HexOf(bytes: seq<Byte>): string {
    "0x" + ToHex(bytes)
  }

  /** What the service asks to be locked: the contract's code, the parties, the terms. */
  datatype Terms = Terms(codeHash: Hash, hashType: HashType, client: Script, worker: Script, salt: Hash,
                         milestoneIndex: int, since: string, amount: string, agreementDigest: Hash, milestoneDigest: Hash)

  datatype Commitment = Commitment(lock: Script, cellData: seq<Byte>, since: nat, amount: nat)

  function CreateCommitment(hash: Script -> Hash, terms: Terms, occupied: (Script, seq<Byte>) -> nat)
    : Result<Commitment, SignerError>
  {
    var amount, since := Amounts.ParsePositiveIntegerAmount(terms.amount), ParseRefundTimeoutSince(terms.since);
    if amount.Err? then Err(InvalidAmount)
    else if since.Err? then Err(InvalidSince)
    else
      var args := Codec.EncodeLockArgs(
                    Codec.LockArgs(HexOf(hash(terms.client)), HexOf(hash(terms.worker)), HexOf(terms.salt)));
      var data := Codec.EncodeCellData(
                    Codec.CellData(terms.milestoneIndex, since.value, HexOf(terms.agreementDigest), HexOf(terms.milestoneDigest)));
      if args.Err? || data.Err? then Err(BadTerms)
      else
        var argBytes, dataBytes := Codec.HexBytes(args.value, 96), Codec.HexBytes(data.value, 88);
        if argBytes.Err? || dataBytes.Err? then Err(BadTerms)
        else
          var lock := Script(terms.codeHash, terms.hashType, argBytes.value);
          if amount.value < occupied(lock, dataBytes.value) then Err(AmountTooLow)
          else Ok(Commitment(lock, dataBytes.value, since.value, amount.value))
  }

  lemma LockArgsAreReadable(client: Hash, worker: Hash, salt: Hash)
    ensures var args := Codec.EncodeLockArgs(Codec.LockArgs(HexOf(client), HexOf(worker), HexOf(salt)));
            args.Ok? ==> Codec.HexBytes(args.value, 96) == Ok(PartyBytes(PartyHashes(client, worker, salt)))
  {
    var args := Codec.LockArgs(HexOf(client), HexOf(worker), HexOf(salt));
    Codec.HexOfBytes(client);
    Codec.HexOfBytes(worker);
    Codec.HexOfBytes(salt);
    if Codec.EncodeLockArgs(args).Ok? {
      Codec.EncodedLockArgsParse(args);
      hide *;
      PartyHashesRoundTrip(PartyHashes(client, worker, salt),
                           Codec.HexBytes(Codec.EncodeLockArgs(args).value, 96).value);
    }
  }

  lemma CellDataIsReadable(index: int, since: nat, agreement: Hash, milestone: Hash)
    requires since < SINCE_LIMIT
    ensures var data := Codec.EncodeCellData(Codec.CellData(index, since, HexOf(agreement), HexOf(milestone)));
            data.Ok? ==>
              && 0 <= index < 0x1_0000_0000 && Codec.HexBytes(data.value, 88).Ok?
              && ParseTerms(Codec.HexBytes(data.value, 88).value)
                 == Ok(EscrowTerms(VERSION, index, since, agreement, milestone))
  {
    var data := Codec.CellData(index, since, HexOf(agreement), HexOf(milestone));
    Codec.HexOfBytes(agreement);
    Codec.HexOfBytes(milestone);
    if Codec.EncodeCellData(data).Ok? {
      CellDataRange(data);
      Codec.EncodedCellDataParses(data);
      hide Codec.EncodeCellData, ParseTerms, Codec.HexBytes, ToHex;
    }
  }

  /** The script finds in a commitment the parties and the terms it was made of, and never refuses to read it. */
  lemma CommitmentIsReadable(hash: Script -> Hash, terms: Terms, occupied: (Script, seq<Byte>) -> nat)
    requires CreateCommitment(hash, terms, occupied).Ok?
    ensures var made := CreateCommitment(hash, terms, occupied).value;
            && 0 <= terms.milestoneIndex < 0x1_0000_0000 && made.since < SINCE_LIMIT
            && made.lock.args == PartyBytes(PartyHashes(hash(terms.client), hash(terms.worker), terms.salt))
            && ParseTerms(made.cellData) == Ok(EscrowTerms(VERSION, terms.milestoneIndex, made.since,
                                                           terms.agreementDigest, terms.milestoneDigest))
            && Amounts.Print(made.amount) == terms.amount && occupied(made.lock, made.cellData) <= made.amount
            && Amounts.Print(made.since) == terms.since
  {
    var made := CreateCommitment(hash, terms, occupied).value;
    TimeoutsAreCanonical(terms.since, made.since);
    hide ParseRefundTimeoutSince, Codec.EncodeLockArgs, Codec.EncodeCellData, Codec.HexBytes, HexOf, ParseTerms, Amounts.ParsePositiveIntegerAmount,
         Amounts.Print, PartyBytes;
    LockArgsAreReadable(hash(terms.client), hash(terms.worker), terms.salt);
    CellDataIsReadable(terms.milestoneIndex, made.since, terms.agreementDigest, terms.milestoneDigest);
    Amounts.AmountsAreCanonical(terms.amount, made.amount);
  }

  /** Terms whose texts are canonical and in range are committed to, cell data and all, unless the cell needs more. */
  lemma CommitmentIsMade(hash: Script -> Hash, terms: Terms, occupied: (Script, seq<Byte>) -> nat, amount: nat, since: nat)
    requires 1 <= amount <= Ledger.MAX_SHANNONS && terms.amount == Amounts.Print(amount)
    requires since < SINCE_LIMIT && terms.since == Amounts.Print(since) && 0 <= terms.milestoneIndex < 0x1_0000_0000
    ensures var lock := Script(terms.codeHash, terms.hashType,
                               PartyBytes(PartyHashes(hash(terms.client), hash(terms.worker), terms.salt)));
            var data := TermsBytes(EscrowTerms(VERSION, terms.milestoneIndex, since, terms.agreementDigest,
                                               terms.milestoneDigest));
            CreateCommitment(hash, terms, occupied)
            == if occupied(lock, data) <= amount then Ok(Commitment(lock, data, since, amount)) else Err(AmountTooLow)
  {
    Amounts.AmountsAreCanonical(terms.amount, amount);
    TimeoutsAreCanonical(terms.since, since);
    hide ParseRefundTimeoutSince, Amounts.ParsePositiveIntegerAmount, Codec.EncodeLockArgs, Codec.EncodeCellData,
         Codec.HexBytes, HexOf, ParseTerms, TermsBytes, PartyBytes;
    LockArgsAreReadable(hash(terms.client), hash(terms.worker), terms.salt);
    CellDataIsReadable(terms.milestoneIndex, since, terms.agreementDigest, terms.milestoneDigest);
    EncodingsSucceed(hash(terms.client), hash(terms.worker), terms.salt, terms.milestoneIndex, since,
                     terms.agreementDigest, terms.milestoneDigest);
    var data := Codec.EncodeCellData(Codec.CellData(terms.milestoneIndex, since, HexOf(terms.agreementDigest),
                                                    HexOf(terms.milestoneDigest))).value;
    ParsedTermsSerialize(Codec.HexBytes(data, 88).value);
  }

  lemma EncodingsSucceed(client: Hash, worker: Hash, salt: Hash, index: int, since: nat, agreement: Hash, milestone: Hash)
    requires 0 <= index < 0x1_0000_0000 && since < SINCE_LIMIT
    ensures Codec.EncodeLockArgs(Codec.LockArgs(HexOf(client), HexOf(worker), HexOf(salt))).Ok?
    ensures Codec.EncodeCellData(Codec.CellData(index, since, HexOf(agreement), HexOf(milestone))).Ok?
  {
    Codec.HexOfBytes(client);
    Codec.HexOfBytes(worker);
    Codec.HexOfBytes(salt);
    Codec.HexOfBytes(agreement);
    Codec.HexOfBytes(milestone);
    hide Codec.FixedHex, ToHex;
  }

  /**
   The client alone gets a committed cell back only from the block on that the
   terms name, in an input whose since is a block number.
   */
  lemma TimeoutWaits(hash: Script -> Hash, terms: Terms, occupied: (Script, seq<Byte>) -> nat, tx: Spend, input: Input,
                     since: nat)
    requires CreateCommitment(hash, terms, occupied).Ok? && terms.since == Amounts.Print(since)
    requires var made := CreateCommitment(hash, terms, occupied).value;
             && GroupInputs(tx.inputs, made.lock) == [input]
             && input.cell == Output(made.amount, made.lock, made.cellData)
    ensures var made := CreateCommitment(hash, terms, occupied).value;
            var client, worker := hash(terms.client), hash(terms.worker);
            var state := TxState(made.amount, input.since, SignersOf(hash, tx.inputs), OutputCells(hash, tx.outputs));
            Validate(hash, made.lock, tx) == Ok(TimeoutRefund) <==>
              && Paid(state, client) == 1 && Paid(state, worker) == 0 && worker !in state.signers
              && since <= input.since < SINCE_LIMIT
  {
    var made := CreateCommitment(hash, terms, occupied).value;
    var parties := PartyHashes(hash(terms.client), hash(terms.worker), terms.salt);
    var state := TxState(made.amount, input.since, SignersOf(hash, tx.inputs), OutputCells(hash, tx.outputs));
    CommitmentIsReadable(hash, terms, occupied);
    Amounts.PrintIsCanonical(since);
    Amounts.PrintIsCanonical(made.since);
    PartyHashesRoundTrip(parties, []);
    EachPathPaysOneParty(parties, ParseTerms(made.cellData).value, state);
    hide CreateCommitment, ParseTerms, ParsePartyHashes, PartyBytes, GroupInputs, SignersOf, OutputCells, EvaluateSpend,
         Amounts.Print, Paid;
  }

  lemma CellDataRange(data: Codec.CellData)
    requires Codec.EncodeCellData(data).Ok?
    ensures 0 <= data.milestoneIndex < 0x1_0000_0000
  {
  }

  /** The lock transaction pays the commitment first and the change back to the signer. */
  function LockOf(made: Commitment, signerLock: Script, cells: seq<Cell>, fee: nat, occupiedSize: nat)
    : Result<Spend, SignerError>
  {
    WithChange(InputsOf(cells), Output(made.amount, made.lock, made.cellData), signerLock, Capacity(cells), fee, occupiedSize)
  }

  /** A lock transaction balances, and is verified as the funding of its commitment. */
  lemma LockIsVerified(made: Commitment, signerLock: Script, cells: seq<Cell>, fee: nat, occupiedSize: nat)
    requires LockOf(made, signerLock, cells, fee, occupiedSize).Ok?
    ensures var tx := LockOf(made, signerLock, cells, fee, occupiedSize).value;
            && VerifyFunding(tx, 0, made.lock, made.cellData, made.amount) == None
            && InputTotal(tx.inputs) == OutputTotal(tx.outputs) + fee
            && |tx.outputs| == 2 && tx.outputs[1].lock == signerLock && tx.outputs[1].data == []
            && occupiedSize * 100_000_000 <= tx.outputs[1].capacity
  {
    var tx := LockOf(made, signerLock, cells, fee, occupiedSize).value;
    InputsHoldCapacity(cells);
    assert tx.outputs[..1] == [tx.outputs[0]] && tx.outputs[..1][..0] == [];
    assert OutputTotal([tx.outputs[0]]) == made.amount;
  }

  function SettlementIntent(release: bool, terms: Terms, made: Commitment, escrow: OutPoint): Intent {
    if release then Intent(escrow, made.amount, terms.worker, terms.client, 0)
    else Intent(escrow, made.amount, terms.client, terms.worker, made.since)
  }

  lemma TwoPayments(pay: Output, change: Output, lock: Script, amount: nat)
    ensures |Paying([pay, change], lock, amount)|
            == (if pay.lock == lock && pay.capacity == amount then 1 else 0)
               + (if change.lock == lock && change.capacity == amount then 1 else 0)
  {
    assert [pay, change][1..] == [change] && [change][1..] == [];
    assert |Paying([change], lock, amount)| == if change.lock == lock && change.capacity == amount then 1 else 0;
  }

  lemma {:induction false} NotSpending(inputs: seq<Input>, escrow: OutPoint)
    requires forall input | input in inputs :: input.outPoint != escrow
    ensures Spending(inputs, escrow) == []
  {
    if inputs != [] {
      NotSpending(inputs[1..], escrow);
    }
  }

  /** A built settlement is verified as paying its destination, and as paying nobody else. */
  lemma SettlementIsVerified(intent: Intent, escrowCell: Output, cells: seq<Cell>, fee: nat, lock: Script)
    requires fee <= Capacity(cells) && intent.authorizer != escrowCell.lock
    requires forall c | c in cells :: c.output.lock == intent.authorizer && c.outPoint != intent.escrow
    requires Capacity(cells) - fee != intent.amount
    ensures VerifySettlement(SettlementOf(intent, escrowCell, cells, fee), intent.escrow, lock, intent.amount) == None
            <==> lock == intent.destination
  {
    var tx := SettlementOf(intent, escrowCell, cells, fee);
    FeeInputsStayOut(cells, escrowCell.lock, intent.authorizer, intent.escrow);
    NotSpending(InputsOf(cells), intent.escrow);
    assert tx.inputs[1..] == InputsOf(cells);
    assert Spending(tx.inputs, intent.escrow) == [tx.inputs[0]];
    TwoPayments(tx.outputs[0], tx.outputs[1], lock, intent.amount);
    assert tx.outputs == [tx.outputs[0], tx.outputs[1]];
  }

  /**
   From the commitment to the settlement: the script lets the built release out
   as a payout and the built refund as the worker's refund, and the reconciler
   verifies each as what it is and not as the other, whenever the parties have
   different locks and the change differs from the settled amount; otherwise the
   script finds the outputs ambiguous.
   */
  lemma CommittedEscrowSettles(hash: Script -> Hash, terms: Terms, occupied: (Script, seq<Byte>) -> nat, release: bool,
                               escrow: OutPoint, cells: seq<Cell>, fee: nat)
    requires Distinguishes(hash, {terms.client, terms.worker}) && CreateCommitment(hash, terms, occupied).Ok?
    requires var made := CreateCommitment(hash, terms, occupied).value;
             var intent := SettlementIntent(release, terms, made, escrow);
             && cells != [] && fee <= Capacity(cells) && intent.authorizer != made.lock
             && (forall c | c in cells :: c.output.lock == intent.authorizer && c.outPoint != escrow)
    ensures var made := CreateCommitment(hash, terms, occupied).value;
            var cell := Output(made.amount, made.lock, made.cellData);
            var tx := SettlementOf(SettlementIntent(release, terms, made, escrow), cell, cells, fee);
            (if release then tx.inputs[0].since == 0 else Amounts.Print(tx.inputs[0].since) == terms.since) &&
            if terms.client != terms.worker && Capacity(cells) - fee != made.amount then
              && Validate(hash, made.lock, tx) == Ok(if release then ClientPayout else WorkerRefund)
              && (VerifySettlement(tx, escrow, terms.worker, made.amount) == None <==> release)
              && (VerifySettlement(tx, escrow, terms.client, made.amount) == None <==> !release)
            else Validate(hash, made.lock, tx) == Err(AmbiguousSettlementOutputs)
  {
    var made := CreateCommitment(hash, terms, occupied).value;
    var intent, cell := SettlementIntent(release, terms, made, escrow), Output(made.amount, made.lock, made.cellData);
    CommitmentIsReadable(hash, terms, occupied);
    hide CreateCommitment, Validate, VerifySettlement, SettlementOf, Distinguishes, PartyBytes, ParseTerms, Capacity;
    ScriptAcceptsSettlement(hash, intent, cell, cells, fee, terms.client, terms.worker, terms.salt,
                            if release then ClientPayout else WorkerRefund);
    if Capacity(cells) - fee != made.amount {
      SettlementIsVerified(intent, cell, cells, fee, terms.worker);
      SettlementIsVerified(intent, cell, cells, fee, terms.client);
    }
  }
}
