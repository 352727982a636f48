/** The Firehose accessors of the Cardano protobuf block: id, number, parent
    number and id, LIB number and block time, each guarded against a missing
    header, an empty hash or a number too small to subtract from. */
module BlockExtensions {
  import opened Common
  import Hex

  const LibDepth: nat := 108
  const MillisPerSecond: nat := 1000
  const NanosPerMilli: nat := 1000000
  const NanosPerSecond: nat := 1000000000

  datatype Header = Header(hash: seq<Byte>, height: U64)

  /** The protobuf block: an optional header and a millisecond timestamp. */
  datatype Block = Block(header: Option<Header>, timestamp: U64)

  /** A `time.Time` as Unix seconds and nanoseconds. */
  datatype Time = Time(sec: int, nsec: int)

  /** `GetFirehoseBlockID`: the hash as lower-case hex, or "" without one. */
  function BlockId(b: Block): (id: string)
    ensures id == "" <==> b.header.None? || b.header.value.hash == []
    ensures id != "" ==> Hex.Decode(id) == Some(b.header.value.hash)
    ensures forall k | 0 <= k < |id| :: Hex.IsLowerHexDigit(id[k])
  {
    if b.header.Some? && |b.header.value.hash| > 0 then
      Hex.DecodeEncode(b.header.value.hash);
      Hex.Encode(b.header.value.hash)
    else ""
  }

  /** `GetFirehoseBlockNumber`: the header height, 0 without a header. */
  function BlockNumber(b: Block): (n: U64)
    ensures b.header.None? ==> n == 0
    ensures b.header.Some? ==> n == b.header.value.height
  {
    if b.header.Some? then b.header.value.height else 0
  }

  /** `GetFirehoseBlockParentID`: the schema has no parent hash. */
  function ParentId(b: Block): (id: string)
    ensures id == ""
  {
    ""
  }

  /** `GetFirehoseBlockParentNumber`: number - 1, floored at 0. */
  function ParentNumber(b: Block): (n: U64)
    ensures BlockNumber(b) == 0 ==> n == 0
    ensures BlockNumber(b) > 0 ==> n + 1 == BlockNumber(b)
  {
    var num := BlockNumber(b);
    if num == 0 then 0 else num - 1
  }

  /** `GetFirehoseBlockLIBNum`: 108 blocks behind, floored at 0. */
  function LibNumber(b: Block): (n: U64)
    ensures BlockNumber(b) <= LibDepth ==> n == 0
    ensures BlockNumber(b) > LibDepth ==> n + LibDepth == BlockNumber(b)
  {
    var num := BlockNumber(b);
    if num <= LibDepth then 0 else num - LibDepth
  }

  /** None of the guarded numbers underflows: LIB <= parent <= number. */
  lemma LibParentNumberOrdered(b: Block)
    ensures LibNumber(b) <= ParentNumber(b) <= BlockNumber(b)
  {
  }

  /** `GetFirehoseBlockTime`: a positive millisecond timestamp is split into
      seconds and nanoseconds; a zero timestamp falls back to the clock,
      passed in as `now`. */
  function BlockTime(b: Block, now: Time): (t: Time)
    ensures b.timestamp == 0 ==> t == now
    ensures b.timestamp > 0 ==>
      && 0 <= t.nsec < NanosPerSecond
      && t.nsec % NanosPerMilli == 0
      && t.sec * MillisPerSecond + t.nsec / NanosPerMilli == b.timestamp
  {
    if b.timestamp > 0 then
      Time(b.timestamp / MillisPerSecond, (b.timestamp % MillisPerSecond) * NanosPerMilli)
    else now
  }
}
