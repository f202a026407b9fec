/** The service's own encoder and decoder of lock arguments and cell data, and its agreement with the lock script. */
module EscrowCodec {
  import opened Results
  import opened Bytes
  import L = EscrowLock

  datatype CodecError = BadHex | OutOfRange | BadMagic | BadVersion

  datatype LockArgs = LockArgs(clientLockHash: string, workerLockHash: string, agreementSalt: string)

  datatype CellData = CellData(milestoneIndex: int, refundTimeoutSince: int, agreementDigest: string, milestoneDigest: string)

  /** The digits of a 0x-prefixed hexadecimal value of so many bytes, in lower case. */
  function FixedHex(value: string, bytes: nat): (digits: Result<string, CodecError>)
    ensures digits.Ok? ==> |digits.value| == 2 * bytes && FromHex(digits.value).Some?
  {
    var normalized := LowerAll(value);
    if |normalized| == 2 + 2 * bytes && normalized[..2] == "0x" && FromHex(normalized[2..]).Some?
    then Ok(normalized[2..]) else Err(BadHex)
  }

  /** The bytes a fixed-length hexadecimal value denotes. */
  function HexBytes(value: string, bytes: nat): (r: Result<seq<Byte>, CodecError>)
    ensures r.Ok? ==> |r.value| == bytes
  {
    var digits :- FixedHex(value, bytes);
    Ok(FromHex(digits).value)
  }

  function UnsignedInteger(value: int, limit: nat): Result<nat, CodecError> {
    if 0 <= value < limit then Ok(value) else Err(OutOfRange)
  }

  // ---------------------------------------------------------------- lock arguments

  function EncodeLockArgs(args: LockArgs): Result<string, CodecError> {
    var client :- FixedHex(args.clientLockHash, 32);
    var worker :- FixedHex(args.workerLockHash, 32);
    var salt :- FixedHex(args.agreementSalt, 32);
    Ok("0x" + client + worker + salt)
  }

  function DecodeLockArgs(encoded: string): Result<LockArgs, CodecError> {
    var value :- FixedHex(encoded, 96);
    Ok(LockArgs("0x" + value[0..64], "0x" + value[64..128], "0x" + value[128..192]))
  }

  // ---------------------------------------------------------------- cell data

  /** The same 88 bytes as the script's, in the encoder's own layout. */
  function CellBytes(index: nat, since: nat, agreement: seq<Byte>, milestone: seq<Byte>): seq<Byte> {
    L.MAGIC + [1, 0, 0, 0] + ToLe(index, 4) + ToLe(since, 8) + agreement + milestone
  }

  function EncodeCellData(data: CellData): Result<string, CodecError> {
    var index :- UnsignedInteger(data.milestoneIndex, 0x1_0000_0000);
    var since :- UnsignedInteger(data.refundTimeoutSince, 0x1_0000_0000_0000_0000);
    var agreement :- HexBytes(data.agreementDigest, 32);
    var milestone :- HexBytes(data.milestoneDigest, 32);
    Ok("0x" + ToHex(CellBytes(index, since, agreement, milestone)))
  }

  /** Writes the number at the offset, least significant byte first. */
  method WriteLe(buffer: array<Byte>, n: nat, at: nat, width: nat)
    requires at + width <= buffer.Length
    modifies buffer
    ensures buffer[..] == old(buffer[..at]) + ToLe(n, width) + old(buffer[at + width..])
  {
    hide ToLe;
    var rest := n;
    ghost var written: seq<Byte> := [];
    for i := 0 to width
      invariant |written| == i && ToLe(n, width) == written + ToLe(rest, width - i)
      invariant buffer[..] == old(buffer[..at]) + written + old(buffer[at + i..])
    {
      ghost var before := buffer[..];
      buffer[at + i] := rest % 256;
      assert buffer[..] == before[at + i := rest % 256];
      OneMoreByte(old(buffer[..at]), written, old(buffer[at + i..]), rest % 256);
      NextByte(written, rest, width - i);
      written := written + [rest % 256];
      rest := rest / 256;
      assert old(buffer[at + i..])[1..] == old(buffer[at + i + 1..]);
    }
    assert written + ToLe(rest, 0) == written;
  }

  lemma OneMoreByte(head: seq<Byte>, written: seq<Byte>, tail: seq<Byte>, b: Byte)
    requires tail != []
    ensures (head + written + tail)[|head| + |written| := b] == head + (written + [b]) + tail[1..]
  {
  }

  lemma NextByte(written: seq<Byte>, rest: nat, width: nat)
    requires width > 0
    ensures written + ToLe(rest, width) == (written + [rest % 256]) + ToLe(rest / 256, width - 1)
  {
  }

  /** Fills a zeroed buffer field by field. */
  method EncodeEscrowCellData(data: CellData) returns (encoded: Result<string, CodecError>)
    ensures encoded == EncodeCellData(data)
  {
    var index :- UnsignedInteger(data.milestoneIndex, 0x1_0000_0000);
    var since :- UnsignedInteger(data.refundTimeoutSince, 0x1_0000_0000_0000_0000);
    var buffer := new Byte[88](_ => 0);
    L.CopyFromSlice(buffer, 0, L.MAGIC);
    buffer[8] := 1;
    assert buffer[..] == L.MAGIC + [1, 0, 0, 0] + seq(76, _ => 0);
    WriteLe(buffer, index, 12, 4);
    WriteLe(buffer, since, 16, 8);
    var agreement :- HexBytes(data.agreementDigest, 32);
    L.CopyFromSlice(buffer, 24, agreement);
    var milestone :- HexBytes(data.milestoneDigest, 32);
    L.CopyFromSlice(buffer, 56, milestone);
    assert buffer[..] == CellBytes(index, since, agreement, milestone);
    encoded := Ok("0x" + ToHex(buffer[..]));
  }

  /** The decoder looks neither at the three reserved bytes nor at the range of the timeout. */
  function DecodeCellData(encoded: string): Result<CellData, CodecError> {
    var bytes :- HexBytes(encoded, 88);
    if bytes[0..8] != L.MAGIC then Err(BadMagic)
    else if bytes[8] != 1 then Err(BadVersion)
    else Ok(CellData(L.U32At(bytes, 12), L.U64At(bytes, 16), "0x" + ToHex(bytes[24..56]), "0x" + ToHex(bytes[56..88])))
  }

  // ---------------------------------------------------------------- hexadecimal values and bytes

  lemma HexOfBytes(bytes: seq<Byte>)
    ensures HexBytes("0x" + ToHex(bytes), |bytes|) == Ok(bytes)
    ensures LowerAll("0x" + ToHex(bytes)) == "0x" + ToHex(bytes)
  {
    HexRoundTrip(bytes);
    PrefixedIsLower(ToHex(bytes));
    assert ("0x" + ToHex(bytes))[2..] == ToHex(bytes);
  }

  lemma PrefixedIsLower(digits: string)
    requires FromHex(digits).Some?
    ensures LowerAll("0x" + digits) == "0x" + digits
  {
    HexIsLower(digits);
    var s := "0x" + digits;
    assert s[1..] == "x" + digits && s[1..][1..] == digits;
    assert LowerAll(s[1..]) == "x" + digits;
  }

  /** Values that differ in the case of their letters only denote the same bytes. */
  lemma CaseDoesNotMatter(some: string, other: string, bytes: nat)
    requires |some| == |other| && forall i | 0 <= i < |some| :: SameHexLetter(some[i], other[i])
    ensures HexBytes(some, bytes) == HexBytes(other, bytes)
  {
    LowerForgetsCase(some, other);
  }

  /** A value is its bytes, up to the case of its letters. */
  lemma BytesOfHex(value: string, bytes: nat)
    requires HexBytes(value, bytes).Ok?
    ensures "0x" + ToHex(HexBytes(value, bytes).value) == LowerAll(value)
  {
    HexRoundTripBack(FixedHex(value, bytes).value);
    var lower := LowerAll(value);
    assert lower == lower[..2] + lower[2..];
  }

  // ---------------------------------------------------------------- round trips

  /** Decoding gives back the data, up to the case of the digests' letters. */
  lemma CellDataRoundTrip(data: CellData)
    requires EncodeCellData(data).Ok?
    ensures DecodeCellData(EncodeCellData(data).value)
            == Ok(data.(agreementDigest := LowerAll(data.agreementDigest), milestoneDigest := LowerAll(data.milestoneDigest)))
  {
    var agreement, milestone := HexBytes(data.agreementDigest, 32).value, HexBytes(data.milestoneDigest, 32).value;
    var bytes := CellBytes(data.milestoneIndex, data.refundTimeoutSince, agreement, milestone);
    BytesOfHex(data.agreementDigest, 32);
    BytesOfHex(data.milestoneDigest, 32);
    HexOfBytes(bytes);
    WidthBounds();
    LeRoundTrip(data.milestoneIndex, 4);
    LeRoundTrip(data.refundTimeoutSince, 8);
    hide HexBytes, ToHex, ToLe, FromLe, LowerAll, Pow256;
    CellBytesParts(data.milestoneIndex, data.refundTimeoutSince, agreement, milestone);
  }

  lemma CellBytesParts(index: nat, since: nat, agreement: seq<Byte>, milestone: seq<Byte>)
    requires |agreement| == 32 && |milestone| == 32
    ensures var bytes := CellBytes(index, since, agreement, milestone);
            && |bytes| == 88 && bytes[0..8] == L.MAGIC && bytes[8] == 1 && bytes[9..12] == [0, 0, 0]
            && bytes[12..16] == ToLe(index, 4) && bytes[16..24] == ToLe(since, 8)
            && bytes[24..56] == agreement && bytes[56..88] == milestone
  {
  }

  /** The bytes of encoded cell data are those that the script would serialize. */
  lemma SameLayout(terms: L.EscrowTerms)
    requires terms.version == L.VERSION
    ensures CellBytes(terms.milestoneIndex, terms.refundTimeoutSince, terms.agreementDigest, terms.milestoneDigest)
            == L.TermsBytes(terms)
  {
    assert [terms.version] + [0, 0, 0] == [1, 0, 0, 0];
  }

  /** Encoding what was decoded gives the cell data back exactly when its reserved bytes are zero. */
  lemma CellDataRoundTripBack(encoded: string)
    requires DecodeCellData(encoded).Ok?
    ensures EncodeCellData(DecodeCellData(encoded).value) == Ok(LowerAll(encoded))
            <==> HexBytes(encoded, 88).value[9..12] == [0, 0, 0]
  {
    var bytes := HexBytes(encoded, 88).value;
    EncodedAgain(encoded);
    BytesOfHex(encoded, 88);
    CellBytesAgain(bytes);
    hide *;
    var again := CellBytes(L.U32At(bytes, 12), L.U64At(bytes, 16), bytes[24..56], bytes[56..88]);
    SameDigits(again, bytes);
  }

  lemma SameDigits(a: seq<Byte>, b: seq<Byte>)
    ensures "0x" + ToHex(a) == "0x" + ToHex(b) <==> a == b
  {
    HexRoundTrip(a);
    HexRoundTrip(b);
    assert ("0x" + ToHex(a))[2..] == ToHex(a) && ("0x" + ToHex(b))[2..] == ToHex(b);
  }

  lemma EncodedAgain(encoded: string)
    requires DecodeCellData(encoded).Ok?
    ensures HexBytes(encoded, 88).Ok?
    ensures var bytes := HexBytes(encoded, 88).value;
            && bytes[0..8] == L.MAGIC && bytes[8] == 1
            && EncodeCellData(DecodeCellData(encoded).value)
               == Ok("0x" + ToHex(CellBytes(L.U32At(bytes, 12), L.U64At(bytes, 16), bytes[24..56], bytes[56..88])))
  {
    var bytes := HexBytes(encoded, 88).value;
    HexOfBytes(bytes[24..56]);
    HexOfBytes(bytes[56..88]);
    hide HexBytes, ToHex, ToLe, FromLe, LowerAll, CellBytes;
  }

  lemma CellBytesAgain(bytes: seq<Byte>)
    requires |bytes| == 88 && bytes[0..8] == L.MAGIC && bytes[8] == 1
    ensures CellBytes(L.U32At(bytes, 12), L.U64At(bytes, 16), bytes[24..56], bytes[56..88]) == bytes
            <==> bytes[9..12] == [0, 0, 0]
  {
    var again := CellBytes(L.U32At(bytes, 12), L.U64At(bytes, 16), bytes[24..56], bytes[56..88]);
    LeRoundTripBack(bytes[12..16]);
    LeRoundTripBack(bytes[16..24]);
    CellBytesParts(L.U32At(bytes, 12), L.U64At(bytes, 16), bytes[24..56], bytes[56..88]);
    hide ToLe, FromLe, CellBytes;
    L.CutAndJoin(bytes);
    L.CutAndJoin(again);
  }

  lemma DigitsOfHex(value: string, bytes: nat)
    requires FixedHex(value, bytes).Ok?
    ensures "0x" + FixedHex(value, bytes).value == LowerAll(value)
  {
    var lower := LowerAll(value);
    assert lower == lower[..2] + lower[2..];
  }

  lemma FixedHexOfDigits(digits: string, bytes: nat)
    requires FromHex(digits).Some? && |digits| == 2 * bytes
    ensures FixedHex("0x" + digits, bytes) == Ok(digits)
  {
    PrefixedIsLower(digits);
    assert ("0x" + digits)[2..] == digits;
  }

  lemma ThreeParts(a: string, b: string, c: string)
    requires FromHex(a).Some? && FromHex(b).Some? && FromHex(c).Some?
    requires |a| == |b| == |c| == 64
    ensures FixedHex("0x" + a + b + c, 96) == Ok(a + b + c)
    ensures (a + b + c)[0..64] == a && (a + b + c)[64..128] == b && (a + b + c)[128..192] == c
    ensures FromHex(a + b + c) == Some(FromHex(a).value + FromHex(b).value + FromHex(c).value)
  {
    HexConcat(a, b);
    HexConcat(a + b, c);
    FixedHexOfDigits(a + b + c, 96);
    assert "0x" + a + b + c == "0x" + (a + b + c);
    hide FixedHex, FromHex;
  }

  lemma LockArgsRoundTrip(args: LockArgs)
    requires EncodeLockArgs(args).Ok?
    ensures DecodeLockArgs(EncodeLockArgs(args).value)
            == Ok(LockArgs(LowerAll(args.clientLockHash), LowerAll(args.workerLockHash), LowerAll(args.agreementSalt)))
  {
    DigitsOfHex(args.clientLockHash, 32);
    DigitsOfHex(args.workerLockHash, 32);
    DigitsOfHex(args.agreementSalt, 32);
    hide FixedHex, FromHex;
    ThreeParts(FixedHex(args.clientLockHash, 32).value, FixedHex(args.workerLockHash, 32).value,
               FixedHex(args.agreementSalt, 32).value);
  }

  lemma {:induction false} HexPrefix(s: string, bytes: nat)
    requires FromHex(s).Some? && 2 * bytes <= |s|
    ensures FromHex(s[..2 * bytes]).Some? && FromHex(s[2 * bytes..]).Some?
  {
    hide DigitValue;
    if bytes > 0 {
      HexPrefix(s[2..], bytes - 1);
      assert s[..2 * bytes][2..] == s[2..][..2 * (bytes - 1)];
      assert s[2 * bytes..] == s[2..][2 * (bytes - 1)..];
    } else {
      assert s[0..] == s;
    }
  }

  lemma ThreeThirds(value: string)
    requires FromHex(value).Some? && |value| == 192
    ensures FromHex(value[0..64]).Some? && FromHex(value[64..128]).Some? && FromHex(value[128..192]).Some?
    ensures "0x" + value[0..64] + value[64..128] + value[128..192] == "0x" + value
  {
    hide FromHex;
    HexPrefix(value, 32);
    HexPrefix(value[64..], 32);
    assert value[..64] == value[0..64] && value[64..][..64] == value[64..128] && value[64..][64..] == value[128..192];
  }

  lemma LockArgsRoundTripBack(encoded: string)
    requires DecodeLockArgs(encoded).Ok?
    ensures EncodeLockArgs(DecodeLockArgs(encoded).value) == Ok(LowerAll(encoded))
  {
    var value := FixedHex(encoded, 96).value;
    DigitsOfHex(encoded, 96);
    hide FixedHex, FromHex;
    ThreeThirds(value);
    FixedHexOfDigits(value[0..64], 32);
    FixedHexOfDigits(value[64..128], 32);
    FixedHexOfDigits(value[128..192], 32);
  }

  // ---------------------------------------------------------------- the two languages

  /**
   The script accepts cell data exactly when the service's decoder does, the
   reserved bytes are zero and the timeout is a block number; and then both
   read the same terms.
   */
  lemma SameCellData(encoded: string)
    requires HexBytes(encoded, 88).Ok?
    ensures var bytes := HexBytes(encoded, 88).value;
            var decoded, parsed := DecodeCellData(encoded), L.ParseTerms(bytes);
            && (parsed.Ok? <==>
                  decoded.Ok? && bytes[9..12] == [0, 0, 0] && decoded.value.refundTimeoutSince < L.SINCE_LIMIT)
            && (parsed.Ok? ==>
                  && decoded.value.milestoneIndex == parsed.value.milestoneIndex
                  && decoded.value.refundTimeoutSince == parsed.value.refundTimeoutSince
                  && decoded.value.agreementDigest == "0x" + ToHex(parsed.value.agreementDigest)
                  && decoded.value.milestoneDigest == "0x" + ToHex(parsed.value.milestoneDigest))
  {
    hide HexBytes, ToHex;
  }

  /** Whatever the encoder makes of a block-number timeout, the script reads as those very terms. */
  lemma EncodedCellDataParses(data: CellData)
    requires EncodeCellData(data).Ok? && data.refundTimeoutSince < L.SINCE_LIMIT
    ensures var bytes := HexBytes(EncodeCellData(data).value, 88);
            && bytes.Ok?
            && L.ParseTerms(bytes.value)
               == Ok(L.EscrowTerms(L.VERSION, data.milestoneIndex, data.refundTimeoutSince,
                                   HexBytes(data.agreementDigest, 32).value, HexBytes(data.milestoneDigest, 32).value))
  {
    var agreement, milestone := HexBytes(data.agreementDigest, 32).value, HexBytes(data.milestoneDigest, 32).value;
    var terms := L.EscrowTerms(L.VERSION, data.milestoneIndex, data.refundTimeoutSince, agreement, milestone);
    HexOfBytes(L.TermsBytes(terms));
    SameLayout(terms);
    L.SerializedTermsParse(terms);
    hide HexBytes, ToHex, L.ParseTerms;
  }

  /** The script finds in encoded lock arguments the very hashes they were made of. */
  lemma EncodedLockArgsParse(args: LockArgs)
    requires EncodeLockArgs(args).Ok?
    ensures var bytes := HexBytes(EncodeLockArgs(args).value, 96);
            && bytes.Ok?
            && L.ParsePartyHashes(bytes.value)
               == Ok(L.PartyHashes(HexBytes(args.clientLockHash, 32).value, HexBytes(args.workerLockHash, 32).value,
                                   HexBytes(args.agreementSalt, 32).value))
  {
    var c, w, s := FixedHex(args.clientLockHash, 32).value, FixedHex(args.workerLockHash, 32).value,
                   FixedHex(args.agreementSalt, 32).value;
    var parties := L.PartyHashes(FromHex(c).value, FromHex(w).value, FromHex(s).value);
    L.PartyHashesRoundTrip(parties, []);
    hide FixedHex, FromHex, L.ParsePartyHashes;
    ThreeParts(c, w, s);
  }
}
