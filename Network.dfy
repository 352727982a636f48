/** Per-network constants both fetchers share: the slot-to-wall-clock
    configuration table with its mainnet fallback, the conversion from a slot
    to the Unix time (ms) at which it begins, and network-magic resolution. */
module Network {
  import opened Common

  /** Milliseconds since the Unix epoch at which `zeroSlot` began, and the
      length of one slot in milliseconds. */
  datatype SlotConfig = SlotConfig(zeroTime: I64, zeroSlot: U64, slotLength: I64)

  const SlotConfigNetwork: map<string, SlotConfig> := map[
    "mainnet" := SlotConfig(1596059091000, 4492800, 1000),
    "preview" := SlotConfig(1666656000000, 0, 1000),
    "preprod" := SlotConfig(1654041600000 + 1728000000, 86400, 1000)
  ]

  /** The slot configuration `NewBlockFetcher` picks for a network name. */
  function SlotConfigFor(network: string): (c: SlotConfig)
    ensures network in SlotConfigNetwork ==> c == SlotConfigNetwork[network]
    ensures network !in SlotConfigNetwork ==> c == SlotConfig(1596059091000, 4492800, 1000)
  {
    if network in SlotConfigNetwork then SlotConfigNetwork[network] else SlotConfigNetwork["mainnet"]
  }

  /** `slotToBeginUnixTime`: the uint64 difference `slot - zeroSlot`,
      reinterpreted as int64, times `slotLength`, plus `zeroTime`, every step
      in 64-bit arithmetic. The steps compose to the exact formula reduced
      once to int64. */
  function SlotToBeginUnixTime(slot: U64, c: SlotConfig): (t: I64)
    ensures t == Wrap64(c.zeroTime + (slot - c.zeroSlot) * c.slotLength)
  {
    Wrap64MulAdd(Sub64(slot, c.zeroSlot), slot - c.zeroSlot, c.slotLength, c.zeroTime);
    var msAfterBegin := Wrap64(Wrap64(Sub64(slot, c.zeroSlot)) * c.slotLength);
    Wrap64(c.zeroTime + msAfterBegin)
  }

  /** The zero slot begins exactly at the configured zero time. */
  lemma SlotTimeAtZeroSlot(c: SlotConfig)
    ensures SlotToBeginUnixTime(c.zeroSlot, c) == c.zeroTime
  {
    Wrap64Id(c.zeroTime);
  }

  /** Each further slot begins `slotLength` ms later (in int64 arithmetic). */
  lemma SlotTimeStep(slot: U64, c: SlotConfig)
    requires slot + 1 < Two64
    ensures SlotToBeginUnixTime(slot + 1, c) == Wrap64(SlotToBeginUnixTime(slot, c) + c.slotLength)
  {
    var before := c.zeroTime + (slot - c.zeroSlot) * c.slotLength;
    NextSlotExact(c.zeroTime, slot, c.zeroSlot, c.slotLength);
    Wrap64Step(SlotToBeginUnixTime(slot, c), SlotToBeginUnixTime(slot + 1, c), before, c.slotLength);
  }

  lemma Wrap64Step(t0: int, t1: int, exact: int, len: int)
    requires t0 == Wrap64(exact) && t1 == Wrap64(exact + len)
    ensures t1 == Wrap64(t0 + len)
  {
    Wrap64Add(exact, len);
  }

  lemma NextSlotExact(zeroTime: int, slot: int, zeroSlot: int, slotLength: int)
    ensures zeroTime + (slot + 1 - zeroSlot) * slotLength == (zeroTime + (slot - zeroSlot) * slotLength) + slotLength
  {
    MulDistributes(slot - zeroSlot, 1, slotLength);
  }

  /** Where the exact time fits in int64, no wrap-around happens at all. */
  lemma SlotTimeExact(slot: U64, c: SlotConfig)
    requires -Two63 <= c.zeroTime + (slot - c.zeroSlot) * c.slotLength < Two63
    ensures SlotToBeginUnixTime(slot, c) == c.zeroTime + (slot - c.zeroSlot) * c.slotLength
  {
    Wrap64Id(c.zeroTime + (slot - c.zeroSlot) * c.slotLength);
  }

  /** `resolveNetworkMagic`: a configured magic is kept; magic 0 is looked up
      by network name in `networks` (the protocol library's table). */
  function ResolveMagic(magic: U32, network: string, networks: map<string, U32>): (r: Result<U32>)
    ensures magic != 0 ==> r == Ok(magic)
    ensures magic == 0 ==> (r.Ok? <==> network in networks)
    ensures magic == 0 && network in networks ==> r.value == networks[network]
    ensures r.Err? ==> r.error == InvalidNetwork(network)
  {
    if magic != 0 then Ok(magic)
    else if network in networks then Ok(networks[network])
    else Err(InvalidNetwork(network))
  }
}
