/** The producer side of the Firehose line protocol, shared by both fetchers:
    `Init` writes `FIRE INIT 3.0 <block type>`, and `OutputBlock` derives the
    parent number, LIB number and nanosecond timestamp of a block and writes
    `FIRE BLOCK <num> <id> <parentNum> <parentId> <lib> <ts> <base64>`. The two
    fetchers differ only in the LIB depth they pass in. */
module FireLine {
  import opened Common
  import opened Text
  import Hex
  import Network

  const NanosPerMilli: int := 1000000

  /** What `OutputBlock` reads from a `ledger.Block`: its number, slot, hash
      and the previous block's hash. Hashes print with `%s` as lower-case hex. */
  datatype LedgerBlock = LedgerBlock(number: U64, slot: U64, hash: seq<Byte>, prevHash: seq<Byte>)

  /** The fields of one `FIRE BLOCK` line. `payload` is the base64 text of the
      serialized block, which never holds a space. */
  datatype Record = Record(
    number: U64, id: string, parentNumber: U64, parentId: string,
    libNumber: U64, timestampNanos: I64, payload: Token)

  /** `Init`: the line announcing the protocol version and the block type.
      It splits into its tag, the version "3.0" and the block type. */
  function InitLine(blockTypeUrl: string): (line: string)
    ensures line == "FIRE INIT 3.0 " + blockTypeUrl
    ensures SpaceFree(blockTypeUrl) ==> Split(line) == ["FIRE", "INIT", "3.0", blockTypeUrl]
  {
    var parts := ["FIRE", "INIT", "3.0", blockTypeUrl];
    assert Join(parts[2..], " ") == "3.0" + " " + blockTypeUrl;
    assert Join(parts[1..], " ") == "INIT" + " " + Join(parts[2..], " ");
    if SpaceFree(blockTypeUrl) then SplitJoin(parts); Join(parts, " ") else Join(parts, " ")
  }

  /** The field derivation of `OutputBlock`: parent = n - 1 and lib = n - libDepth
      as uint64 (no underflow guard), timestamp = slot begin (ms) * 1,000,000
      as int64. */
  function Derive(libDepth: U64, c: Network.SlotConfig, b: LedgerBlock, payload: Token): (r: Record)
    ensures r.number == b.number && r.payload == payload
    ensures Hex.Decode(r.id) == Some(b.hash) && Hex.Decode(r.parentId) == Some(b.prevHash)
    ensures forall k | 0 <= k < |r.id| :: Hex.IsLowerHexDigit(r.id[k])
    ensures forall k | 0 <= k < |r.parentId| :: Hex.IsLowerHexDigit(r.parentId[k])
    ensures b.number >= 1 ==> r.parentNumber + 1 == b.number
    ensures b.number >= libDepth ==> r.libNumber + libDepth == b.number
    ensures r.timestampNanos == Wrap64((c.zeroTime + (b.slot - c.zeroSlot) * c.slotLength) * NanosPerMilli)
  {
    Hex.DecodeEncode(b.hash);
    Hex.DecodeEncode(b.prevHash);
    ScaleWrapped(Network.SlotToBeginUnixTime(b.slot, c), c.zeroTime + (b.slot - c.zeroSlot) * c.slotLength, NanosPerMilli);
    Record(
      b.number, Hex.Encode(b.hash),
      Sub64(b.number, 1), Hex.Encode(b.prevHash),
      Sub64(b.number, libDepth),
      Wrap64(Network.SlotToBeginUnixTime(b.slot, c) * NanosPerMilli),
      payload)
  }

  function Fields(r: Record): seq<string> {
    [FormatUint(r.number), r.id, FormatUint(r.parentNumber), r.parentId,
     FormatUint(r.libNumber), FormatInt(r.timestampNanos), r.payload]
  }

  /** The `Sprintf("FIRE BLOCK %d %s %d %s %d %d %s", ...)` body: the tag
      and the seven fields, separated by single spaces. With space-free
      hashes, it splits at its spaces into the tag and exactly the fields. */
  function Line(r: Record): (line: string)
    ensures SpaceFree(r.id) && SpaceFree(r.parentId) ==> Split(line) == ["FIRE", "BLOCK"] + Fields(r)
  {
    var parts := ["FIRE", "BLOCK"] + Fields(r);
    if SpaceFree(r.id) && SpaceFree(r.parentId) then SplitJoin(parts); Join(parts, " ") else Join(parts, " ")
  }

  /** Every block line is the tag `FIRE BLOCK ` followed by the fields. */
  lemma LineStartsWithTag(r: Record)
    ensures Line(r) == "FIRE BLOCK " + Join(Fields(r), " ")
  {
    var parts := ["FIRE", "BLOCK"] + Fields(r);
    assert parts[2..] == Fields(r);
    assert Join(parts[1..], " ") == "BLOCK" + " " + Join(parts[2..], " ");
    assert Line(r) == "FIRE" + " " + ("BLOCK" + " " + Join(Fields(r), " "));
  }

  /** `OutputBlock`: the line to emit, or the serializer's failure, in which
      case no line is produced. `serialized` is the base64 text of the
      serialized block, or None when serialization failed. */
  function OutputBlock(libDepth: U64, c: Network.SlotConfig, b: LedgerBlock, serialized: Option<Token>): (r: Result<string>)
    ensures r.Err? <==> serialized.None?
    ensures r.Err? ==> r.error == SerializeFailed
  {
    match serialized
    case None => Err(SerializeFailed)
    case Some(payload) => Ok(Line(Derive(libDepth, c, b, payload)))
  }

  /** Read back at its spaces, the emitted line gives exactly the block's
      number and hashes, the uint64 parent and LIB numbers, the int64
      nanosecond timestamp and the payload, in that order. */
  lemma OutputBlockReadsBack(libDepth: U64, c: Network.SlotConfig, b: LedgerBlock, payload: Token)
    ensures OutputBlock(libDepth, c, b, Some(payload)).Ok?
    ensures var fs := Split(OutputBlock(libDepth, c, b, Some(payload)).value);
      && |fs| == 9 && fs[0] == "FIRE" && fs[1] == "BLOCK"
      && ParseUint(fs[2]) == Some(b.number)
      && Hex.Decode(fs[3]) == Some(b.hash)
      && ParseUint(fs[4]) == Some(Sub64(b.number, 1))
      && Hex.Decode(fs[5]) == Some(b.prevHash)
      && ParseUint(fs[6]) == Some(Sub64(b.number, libDepth))
      && ParseInt(fs[7]) == Some(Wrap64(Network.SlotToBeginUnixTime(b.slot, c) * NanosPerMilli))
      && fs[8] == payload
  {
    var r := Derive(libDepth, c, b, payload);
    var fs := Split(Line(r));
    assert fs == ["FIRE", "BLOCK"] + Fields(r);
    assert fs[2..] == Fields(r);
    ParseFormatUint(r.number);
    ParseFormatUint(r.parentNumber);
    ParseFormatUint(r.libNumber);
    ParseFormatInt(r.timestampNanos);
    Hex.DecodeEncode(b.hash);
    Hex.DecodeEncode(b.prevHash);
  }

  /** Where the exact begin time of the slot in nanoseconds fits in int64,
      the timestamp is exactly that. */
  lemma TimestampFormula(libDepth: U64, c: Network.SlotConfig, b: LedgerBlock, payload: Token)
    ensures -Two63 <= (c.zeroTime + (b.slot - c.zeroSlot) * c.slotLength) * NanosPerMilli < Two63 ==>
      Derive(libDepth, c, b, payload).timestampNanos
        == (c.zeroTime + (b.slot - c.zeroSlot) * c.slotLength) * NanosPerMilli
  {
    var exact := c.zeroTime + (b.slot - c.zeroSlot) * c.slotLength;
    ScaleWrapped(Network.SlotToBeginUnixTime(b.slot, c), exact, NanosPerMilli);
  }

  /** Scaling a wrapped value in int64 is scaling the exact value, wrapped once. */
  lemma ScaleWrapped(t: int, exact: int, k: int)
    requires t == Wrap64(exact)
    ensures Wrap64(t * k) == Wrap64(exact * k)
    ensures -Two63 <= exact * k < Two63 ==> Wrap64(t * k) == exact * k
  {
    Wrap64Mul(exact, k);
    if -Two63 <= exact * k < Two63 {
      Wrap64Id(exact * k);
    }
  }
}
