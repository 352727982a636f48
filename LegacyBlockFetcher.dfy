/** The older block fetcher of `blockfetcher/main.go`: the same line format
    with the LIB 108 blocks behind, lines written through its logger, no
    cursor, and roll-forward data of an unexpected type silently ignored.
    As in `CmdBlockFetcher`, the node client, the serializer and the protocol
    library's network table arrive as parameters. */
module LegacyBlockFetcher {
  import opened Common
  import Cursor
  import Network
  import FireLine

  /** This fetcher puts the LIB 108 blocks behind the block. */
  const LibDepth: U64 := 108
  const BlockTypeUrl: string := "type.googleapis.com/sf.cardano.type.v1.Block"

  /** `Config`, filled from the environment. */
  class Config {
    var address: string
    var network: string
    var networkMagic: U32
    var pipelineLimit: U32

    constructor(address: string, network: string, networkMagic: U32, pipelineLimit: U32)
      ensures this.address == address && this.network == network
      ensures this.networkMagic == networkMagic && this.pipelineLimit == pipelineLimit
    {
      this.address := address;
      this.network := network;
      this.networkMagic := networkMagic;
      this.pipelineLimit := pipelineLimit;
    }
  }

  /** What a roll-forward event carries: a full block, only a block header
      (its slot and hash), or data of any other type. */
  datatype RollData =
    | FullBlock(block: FireLine.LedgerBlock)
    | HeaderOnly(slot: U64, hash: seq<Byte>)
    | OtherData

  /** Here every line in the range of blocks 0 to 107 carries a wrapped LIB,
      where the protobuf accessor `GetFirehoseBlockLIBNum` gives 0. */
  lemma OutputBlockNumbers(c: Network.SlotConfig, b: FireLine.LedgerBlock, payload: Token)
    ensures var r := FireLine.Derive(LibDepth, c, b, payload);
      && (b.number >= LibDepth ==> r.libNumber == b.number - LibDepth)
      && (b.number < LibDepth ==> r.libNumber == b.number - LibDepth + Two64 && r.libNumber > b.number)
      && (b.number >= 1 ==> r.parentNumber == b.number - 1)
      && (b.number == 0 ==> r.parentNumber == Two64 - 1)
  {
  }

  /** The warning `NewBlockFetcher` logs for a network without a slot configuration. */
  function UnknownNetworkWarning(network: string): string {
    "Warning: Unknown network '" + network + "', defaulting to mainnet slot config"
  }

  class BlockFetcher {
    const config: Config
    const slotConfig: Network.SlotConfig
    var connected: bool
    /** The lines written through the logger (its prefix and date left out). */
    var log: seq<string>

    /** `NewBlockFetcher`: an unknown network falls back to the mainnet slot
        configuration, with a warning through the logger. */
    constructor(cfg: Config)
      ensures config == cfg && slotConfig == Network.SlotConfigFor(cfg.network)
      ensures !connected
      ensures log == if cfg.network in Network.SlotConfigNetwork then [] else [UnknownNetworkWarning(cfg.network)]
    {
      config := cfg;
      slotConfig := Network.SlotConfigFor(cfg.network);
      connected := false;
      log := if cfg.network in Network.SlotConfigNetwork then [] else [UnknownNetworkWarning(cfg.network)];
    }

    /** `Init`: announces the block type through the logger. */
    method Init()
      modifies this`log
      ensures log == old(log) + [FireLine.InitLine(BlockTypeUrl)]
    {
      log := log + [FireLine.InitLine(BlockTypeUrl)];
    }

    /** `processBlock`: only the line is written; nothing else is kept. */
    method ProcessBlock(b: FireLine.LedgerBlock, serialize: FireLine.LedgerBlock -> Option<Token>)
      returns (err: Option<Error>)
      modifies this`log
      ensures serialize(b).None? ==> err == Some(SerializeFailed) && log == old(log)
      ensures serialize(b).Some? ==>
        err.None? && log == old(log) + [FireLine.Line(FireLine.Derive(LibDepth, slotConfig, b, serialize(b).value))]
    {
      var out := FireLine.OutputBlock(LibDepth, slotConfig, b, serialize(b));
      if out.Err? {
        return Some(out.error);
      }
      log := log + [out.value];
      return None;
    }

    /** `resolveNetworkMagic`: a configured magic is kept; magic 0 is looked
        up by network name. */
    method ResolveNetworkMagic(networks: map<string, U32>) returns (err: Option<Error>)
      modifies config`networkMagic
      ensures var r := Network.ResolveMagic(old(config.networkMagic), config.network, networks);
        && (r.Ok? ==> err.None? && config.networkMagic == r.value)
        && (r.Err? ==> err == Some(r.error) && config.networkMagic == old(config.networkMagic))
    {
      if config.networkMagic == 0 {
        if config.network !in networks {
          return Some(InvalidNetwork(config.network));
        }
        config.networkMagic := networks[config.network];
      }
      return None;
    }

    /** `chainSyncRollForwardHandler`: a full block is processed; for a header
        the block is fetched from the node first (if connected); data of any
        other type is ignored without error. The processing error is returned
        unwrapped. */
    method RollForward(data: RollData, fetch: Cursor.Point -> Option<FireLine.LedgerBlock>,
                       serialize: FireLine.LedgerBlock -> Option<Token>)
      returns (err: Option<Error>)
      modifies this`log
      ensures data.OtherData? ==> err.None? && log == old(log)
      ensures data.HeaderOnly? && !connected ==> err == Some(ConnectionNil) && log == old(log)
      ensures data.HeaderOnly? && connected && fetch(Cursor.Point(data.slot, data.hash)).None? ==>
        err == Some(FetchFailed) && log == old(log)
      ensures data.FullBlock? || (data.HeaderOnly? && connected && fetch(Cursor.Point(data.slot, data.hash)).Some?) ==>
        var b := if data.FullBlock? then data.block else fetch(Cursor.Point(data.slot, data.hash)).value;
        match FireLine.OutputBlock(LibDepth, slotConfig, b, serialize(b))
        case Err(e) => err == Some(e) && log == old(log)
        case Ok(line) => err.None? && log == old(log) + [line]
    {
      match data {
        case FullBlock(b) =>
          err := ProcessBlock(b, serialize);
        case HeaderOnly(slot, hash) =>
          if !connected {
            return Some(ConnectionNil);
          }
          var fetched := fetch(Cursor.Point(slot, hash));
          if fetched.None? {
            return Some(FetchFailed);
          }
          err := ProcessBlock(fetched.value, serialize);
        case OtherData =>
          return None;
      }
    }

    /** `close`: closes an open connection and logs it, but keeps the
        connection: a second call closes it again. `closeOk` is the outcome
        of closing the connection. */
    method Close(closeOk: bool) returns (err: Option<Error>)
      modifies this`log
      ensures !connected ==> err.None? && log == old(log)
      ensures connected && closeOk ==> err.None? && log == old(log) + ["Connection closed successfully"]
      ensures connected && !closeOk ==> err == Some(CloseFailed) && log == old(log)
    {
      if connected {
        if !closeOk {
          return Some(CloseFailed);
        }
        log := log + ["Connection closed successfully"];
      }
      return None;
    }
  }
}
