/** The block fetcher of `cmd/blockfetcher`: it follows the chain through a
    node, writes every block it receives to standard output as a `FIRE BLOCK`
    line, and keeps a resumable cursor of recent chain points in a file.

    The node client is not part of this model. What it supplies arrives as
    parameters: the roll-forward payload, the block fetched for a header
    (`fetch`), the current tip, and the outcome of closing the connection.
    The block serializer with its base64 encoding (`serialize`), the network
    table of the protocol library (`networks`) and the outcome of reading and
    writing the cursor file are parameters too. */
module CmdBlockFetcher {
  import opened Common
  import Hex
  import Network
  import FireLine
  import Cursor

  /** This fetcher puts the LIB 2160 blocks behind the block. */
  const LibDepth: U64 := 2160
  const BlockTypeUrl: string := "type.googleapis.com/sf.cardano.type.v1.Block"
  const DefaultAddress: string := "backbone.cardano.iog.io:3001"
  const DefaultNetwork: string := "mainnet"
  const DefaultPipelineLimit: U32 := 10

  /** `BlockFetcherConfig`, filled from the command line. */
  class Config {
    var address: string
    var socketPath: string
    var network: string
    var networkMagic: U32
    var pipelineLimit: U32
    var startSlot: U64
    var startHash: string
    var cursorFile: string

    constructor(address: string, socketPath: string, network: string, networkMagic: U32,
                pipelineLimit: U32, startSlot: U64, startHash: string, cursorFile: string)
      ensures this.address == address && this.socketPath == socketPath && this.network == network
      ensures this.networkMagic == networkMagic && this.pipelineLimit == pipelineLimit
      ensures this.startSlot == startSlot && this.startHash == startHash && this.cursorFile == cursorFile
    {
      this.address := address;
      this.socketPath := socketPath;
      this.network := network;
      this.networkMagic := networkMagic;
      this.pipelineLimit := pipelineLimit;
      this.startSlot := startSlot;
      this.startHash := startHash;
      this.cursorFile := cursorFile;
    }

    /** `setDefaults`: fills in the node address (only when no socket path is
        given either), the network name and the pipeline limit. */
    method SetDefaults()
      modifies this
      ensures address == if old(address) == "" && old(socketPath) == "" then DefaultAddress else old(address)
      ensures network == if old(network) == "" then DefaultNetwork else old(network)
      ensures pipelineLimit == if old(pipelineLimit) == 0 then DefaultPipelineLimit else old(pipelineLimit)
      ensures socketPath == old(socketPath) && networkMagic == old(networkMagic)
      ensures startSlot == old(startSlot) && startHash == old(startHash) && cursorFile == old(cursorFile)
      ensures (address != "" || socketPath != "") && network != "" && pipelineLimit != 0
    {
      if address == "" && socketPath == "" {
        address := DefaultAddress;
      }
      if network == "" {
        network := DefaultNetwork;
      }
      if pipelineLimit == 0 {
        pipelineLimit := DefaultPipelineLimit;
      }
    }
  }

  /** What a roll-forward event carries: a full block, only a block header
      (its slot and hash), or data of any other type. */
  datatype RollData =
    | FullBlock(block: FireLine.LedgerBlock)
    | HeaderOnly(slot: U64, hash: seq<Byte>)
    | OtherData

  /** The fetcher's mutable state as a value: the lines written to standard
      output, the cursor, and the records last written to the cursor file. */
  datatype State = State(stdout: seq<string>, cursor: Cursor.Retention, savedCursor: Option<seq<Cursor.CursorPoint>>)

  /** `processBlock`: emit the line first; only if that succeeded, and only
      when a cursor file is configured, record the block's point and rewrite
      the file. A failed write is logged, never returned. On success exactly
      one line is added; the cursor is untouched without a cursor file; and
      whenever the file is rewritten it holds the records of the new cursor. */
  function ProcessBlockSpec(s: State, cursorFile: string, c: Network.SlotConfig, b: FireLine.LedgerBlock,
                            serialize: FireLine.LedgerBlock -> Option<Token>, writeOk: bool): (r: (State, Option<Error>))
    ensures r.1.Some? <==> serialize(b).None?
    ensures r.1.Some? ==> r == (s, Some(SerializeFailed))
    ensures r.1.None? ==> |r.0.stdout| == |s.stdout| + 1 && r.0.stdout[..|s.stdout|] == s.stdout
    ensures cursorFile == "" ==> r.0.cursor == s.cursor && r.0.savedCursor == s.savedCursor
    ensures r.0.savedCursor != s.savedCursor ==> r.0.savedCursor == Some(Cursor.ToRecords(r.0.cursor.points))
  {
    match FireLine.OutputBlock(LibDepth, c, b, serialize(b))
    case Err(e) => (s, Some(e))
    case Ok(line) =>
      if cursorFile == "" then (s.(stdout := s.stdout + [line]), None)
      else
        var cursor := Cursor.Add(s.cursor, Cursor.Point(b.slot, b.hash));
        var saved := if writeOk then Some(Cursor.ToRecords(cursor.points)) else s.savedCursor;
        (State(s.stdout + [line], cursor, saved), None)
  }

  /** A block that cannot be serialized produces no line and leaves the cursor
      and the cursor file as they were. */
  lemma ProcessBlockSerializeFailure(s: State, cursorFile: string, c: Network.SlotConfig, b: FireLine.LedgerBlock,
                                     serialize: FireLine.LedgerBlock -> Option<Token>, writeOk: bool)
    requires serialize(b).None?
    ensures ProcessBlockSpec(s, cursorFile, c, b, serialize, writeOk) == (s, Some(SerializeFailed))
  {
  }

  /** A serializable block always yields success, whether or not the cursor
      file could be written, and exactly its line is appended to the output. */
  lemma ProcessBlockSuccess(s: State, cursorFile: string, c: Network.SlotConfig, b: FireLine.LedgerBlock,
                            serialize: FireLine.LedgerBlock -> Option<Token>, writeOk: bool)
    requires serialize(b).Some?
    ensures ProcessBlockSpec(s, cursorFile, c, b, serialize, writeOk).1.None?
    ensures ProcessBlockSpec(s, cursorFile, c, b, serialize, writeOk).0.stdout
         == s.stdout + [FireLine.Line(FireLine.Derive(LibDepth, c, b, serialize(b).value))]
    ensures cursorFile == "" ==>
      && ProcessBlockSpec(s, cursorFile, c, b, serialize, writeOk).0.cursor == s.cursor
      && ProcessBlockSpec(s, cursorFile, c, b, serialize, writeOk).0.savedCursor == s.savedCursor
    ensures cursorFile != "" ==>
      ProcessBlockSpec(s, cursorFile, c, b, serialize, writeOk).0.cursor
        == Cursor.Add(s.cursor, Cursor.Point(b.slot, b.hash))
    ensures cursorFile != "" && !writeOk ==>
      ProcessBlockSpec(s, cursorFile, c, b, serialize, writeOk).0.savedCursor == s.savedCursor
  {
  }

  /** `getStartPoints` as a function of the cursor file as read (None when it
      is missing or unreadable) and of the node's current tip: decodable
      cursor points win; the tip is asked for only when neither they nor a
      configured start point exist; a success is never an empty list. */
  function StartPoints(cursorFile: string, loaded: Option<seq<Cursor.CursorPoint>>, startSlot: U64,
                       startHash: string, tip: Result<Cursor.Point>): (r: Result<seq<Cursor.Point>>)
    ensures r.Ok? ==> |r.value| > 0
    ensures cursorFile != "" && loaded.Some? && Cursor.FromRecords(loaded.value) != [] ==>
      r == Ok(Cursor.FromRecords(loaded.value))
    ensures r.Err? ==> r.error == BadStartHash || r.error == TipFailed
    ensures r == Err(TipFailed) ==> tip.Err? && (startSlot == 0 || startHash == "")
    ensures r == Err(BadStartHash) ==> startSlot != 0 && Hex.Decode(startHash).None?
    ensures !(cursorFile != "" && loaded.Some? && Cursor.FromRecords(loaded.value) != []) ==>
      r == if startSlot != 0 && startHash != "" then
             (if Hex.Decode(startHash).Some? then Ok([Cursor.Point(startSlot, Hex.Decode(startHash).value)])
              else Err(BadStartHash))
           else if tip.Ok? then Ok([tip.value])
           else Err(TipFailed)
  {
    var fromCursor :=
      if cursorFile != "" && loaded.Some? && |loaded.value| > 0 then Cursor.FromRecords(loaded.value) else [];
    if fromCursor != [] then Ok(fromCursor)
    else if startSlot != 0 && startHash != "" then
      match Hex.Decode(startHash)
      case Some(hash) => Ok([Cursor.Point(startSlot, hash)])
      case None => Err(BadStartHash)
    else
      match tip
      case Ok(point) => Ok([point])
      case Err(_) => Err(TipFailed)
  }

  /** Crash and resume: once a processed block has been written to the cursor
      file, resuming from that file starts from exactly the points in memory,
      in the same order, whatever the configured start point or the tip. */
  lemma ResumeFromSavedCursor(s: State, cursorFile: string, c: Network.SlotConfig, b: FireLine.LedgerBlock,
                              serialize: FireLine.LedgerBlock -> Option<Token>,
                              startSlot: U64, startHash: string, tip: Result<Cursor.Point>)
    requires Cursor.Valid(s.cursor) && cursorFile != "" && serialize(b).Some?
    ensures var s' := ProcessBlockSpec(s, cursorFile, c, b, serialize, true).0;
      StartPoints(cursorFile, s'.savedCursor, startSlot, startHash, tip) == Ok(s'.cursor.points)
  {
    var s' := ProcessBlockSpec(s, cursorFile, c, b, serialize, true).0;
    Cursor.AddNonEmpty(s.cursor, Cursor.Point(b.slot, b.hash));
    Cursor.FromToRecords(s'.cursor.points);
  }

  /** `saveCursorState`'s conversion loop: one `{slot, hex hash}` record per
      point, in the same order. The JSON encoding and the file write are not
      part of the model. */
  method CursorRecords(points: seq<Cursor.Point>) returns (records: seq<Cursor.CursorPoint>)
    ensures |records| == |points|
    ensures forall i | 0 <= i < |points| ::
      records[i].slot == points[i].slot && Hex.Decode(records[i].hash) == Some(points[i].hash)
    ensures forall i | 0 <= i < |records| :: forall k | 0 <= k < |records[i].hash| ::
      Hex.IsLowerHexDigit(records[i].hash[k])
    ensures records == Cursor.ToRecords(points)
  {
    var a := new Cursor.CursorPoint[|points|](_ => Cursor.CursorPoint(0, ""));
    for i := 0 to |points|
      invariant forall k | 0 <= k < i :: a[k] == Cursor.ToRecord(points[k])
    {
      a[i] := Cursor.CursorPoint(points[i].slot, Hex.Encode(points[i].hash));
    }
    records := a[..];
    forall i | 0 <= i < |points|
      ensures Hex.Decode(records[i].hash) == Some(points[i].hash)
    {
      Hex.DecodeEncode(points[i].hash);
    }
  }

  /** The loop of `getStartPoints` over the cursor-file records: each record
      whose hash decodes gives a point, in file order; the others are
      skipped (the source logs a warning for them). */
  method DecodeRecords(records: seq<Cursor.CursorPoint>) returns (points: seq<Cursor.Point>)
    ensures points == Cursor.FromRecords(records)
  {
    points := [];
    var i := 0;
    while i < |records|
      invariant 0 <= i <= |records|
      invariant points == Cursor.FromRecords(records[..i])
    {
      assert records[..i + 1][..i] == records[..i];
      var hash := Hex.Decode(records[i].hash);
      if hash.None? {
        i := i + 1;
        continue;
      }
      points := points + [Cursor.Point(records[i].slot, hash.value)];
      i := i + 1;
    }
    assert records[..i] == records;
  }

  class BlockFetcher {
    const config: Config
    const slotConfig: Network.SlotConfig
    var connected: bool
    var cursorPoints: seq<Cursor.Point>
    var baseSlot: U64
    /** The lines written to standard output. */
    var stdout: seq<string>
    /** The records last written to the cursor file, None if never written. */
    var savedCursor: Option<seq<Cursor.CursorPoint>>

    ghost function St(): State
      reads this
    {
      State(stdout, Cursor.Retention(baseSlot, cursorPoints), savedCursor)
    }

    ghost predicate Valid()
      reads this
    {
      Cursor.Valid(Cursor.Retention(baseSlot, cursorPoints))
    }

    /** `NewBlockFetcher`: an unknown network falls back to the mainnet slot
        configuration; no connection and an empty cursor. */
    constructor(cfg: Config, savedCursor: Option<seq<Cursor.CursorPoint>>)
      ensures Valid()
      ensures config == cfg && slotConfig == Network.SlotConfigFor(cfg.network)
      ensures !connected && cursorPoints == [] && baseSlot == 0 && stdout == []
      ensures this.savedCursor == savedCursor
    {
      config := cfg;
      slotConfig := Network.SlotConfigFor(cfg.network);
      connected := false;
      cursorPoints := [];
      baseSlot := 0;
      stdout := [];
      this.savedCursor := savedCursor;
    }

    /** `Init` of the Firehose instrumentation: announces the block type. */
    method Init()
      modifies this`stdout
      ensures stdout == old(stdout) + [FireLine.InitLine(BlockTypeUrl)]
    {
      stdout := stdout + [FireLine.InitLine(BlockTypeUrl)];
    }

    /** `addCursorPoint`: the first point (while the base is 0) replaces the
        list and fixes the base; later points are prepended when retained,
        and the list is cut back to 200 entries. */
    method AddCursorPoint(p: Cursor.Point)
      requires Valid()
      modifies this`baseSlot, this`cursorPoints
      ensures Valid()
      ensures Cursor.Retention(baseSlot, cursorPoints) == Cursor.Add(old(Cursor.Retention(baseSlot, cursorPoints)), p)
    {
      Cursor.AddValid(Cursor.Retention(baseSlot, cursorPoints), p);
      if baseSlot == 0 {
        baseSlot := p.slot;
        cursorPoints := [p];
        return;
      }
      if Cursor.ShouldStore(p.slot, baseSlot) {
        cursorPoints := [p] + cursorPoints;
        if |cursorPoints| > Cursor.MaxPoints {
          cursorPoints := cursorPoints[..Cursor.MaxPoints];
        }
      }
    }

    /** `processBlock`. `writeOk` is the outcome of writing the cursor file. */
    method ProcessBlock(b: FireLine.LedgerBlock, serialize: FireLine.LedgerBlock -> Option<Token>, writeOk: bool)
      returns (err: Option<Error>)
      requires Valid()
      modifies this`stdout, this`baseSlot, this`cursorPoints, this`savedCursor
      ensures Valid()
      ensures (St(), err) == ProcessBlockSpec(old(St()), config.cursorFile, slotConfig, b, serialize, writeOk)
    {
      var out := FireLine.OutputBlock(LibDepth, slotConfig, b, serialize(b));
      if out.Err? {
        return Some(out.error);
      }
      stdout := stdout + [out.value];
      if config.cursorFile != "" {
        AddCursorPoint(Cursor.Point(b.slot, b.hash));
        var records := CursorRecords(cursorPoints);
        if writeOk {
          savedCursor := Some(records);
        }
      }
      return None;
    }

    /** `resolveNetworkMagic`: with magic 0 it announces the network on
        standard output and looks the magic up by name. */
    method ResolveNetworkMagic(networks: map<string, U32>) returns (err: Option<Error>)
      modifies this`stdout, config`networkMagic
      ensures var r := Network.ResolveMagic(old(config.networkMagic), config.network, networks);
        && (r.Ok? ==> err.None? && config.networkMagic == r.value)
        && (r.Err? ==> err == Some(r.error) && config.networkMagic == old(config.networkMagic))
      ensures stdout == if old(config.networkMagic) == 0
                        then old(stdout) + ["Resolving network magic... " + config.network]
                        else old(stdout)
    {
      if config.networkMagic == 0 {
        stdout := stdout + ["Resolving network magic... " + config.network];
        if config.network !in networks {
          return Some(InvalidNetwork(config.network));
        }
        config.networkMagic := networks[config.network];
      }
      return None;
    }

    /** `getStartPoints`: the decodable cursor-file points in file order,
        else the configured start point, else the node's tip. `loaded` is
        what reading the cursor file gave (None on a read or parse error);
        `tip` is what asking the node for its tip gave. */
    method GetStartPoints(loaded: Option<seq<Cursor.CursorPoint>>, tip: Result<Cursor.Point>)
      returns (r: Result<seq<Cursor.Point>>)
      ensures r == StartPoints(config.cursorFile, loaded, config.startSlot, config.startHash, tip)
    {
      if config.cursorFile != "" {
        if loaded.Some? && |loaded.value| > 0 {
          var points := DecodeRecords(loaded.value);
          if |points| > 0 {
            return Ok(points);
          }
        }
      }
      if config.startSlot != 0 && config.startHash != "" {
        var hash := Hex.Decode(config.startHash);
        if hash.None? {
          return Err(BadStartHash);
        }
        return Ok([Cursor.Point(config.startSlot, hash.value)]);
      }
      if tip.Err? {
        return Err(TipFailed);
      }
      return Ok([tip.value]);
    }

    /** `chainSyncRollForwardHandler`: a full block is processed; for a header
        the block is fetched from the node first (if connected); any other
        data is an error. `fetch` is the node's answer for a point. */
    method RollForward(data: RollData, fetch: Cursor.Point -> Option<FireLine.LedgerBlock>,
                       serialize: FireLine.LedgerBlock -> Option<Token>, writeOk: bool)
      returns (err: Option<Error>)
      requires Valid()
      modifies this`stdout, this`baseSlot, this`cursorPoints, this`savedCursor
      ensures Valid()
      ensures data.OtherData? ==> err == Some(UnexpectedBlockData) && St() == old(St())
      ensures data.HeaderOnly? && !connected ==> err == Some(ConnectionNil) && St() == old(St())
      ensures data.HeaderOnly? && connected && fetch(Cursor.Point(data.slot, data.hash)).None? ==>
        err == Some(FetchFailed) && St() == old(St())
      ensures data.FullBlock? || (data.HeaderOnly? && connected && fetch(Cursor.Point(data.slot, data.hash)).Some?) ==>
        var b := if data.FullBlock? then data.block else fetch(Cursor.Point(data.slot, data.hash)).value;
        var (s, e) := ProcessBlockSpec(old(St()), config.cursorFile, slotConfig, b, serialize, writeOk);
        St() == s && err == (if e.Some? then Some(ProcessFailed(e.value)) else None)
    {
      var block: FireLine.LedgerBlock;
      match data {
        case FullBlock(b) =>
          block := b;
        case HeaderOnly(slot, hash) =>
          if !connected {
            return Some(ConnectionNil);
          }
          var fetched := fetch(Cursor.Point(slot, hash));
          if fetched.None? {
            return Some(FetchFailed);
          }
          block := fetched.value;
        case OtherData =>
          return Some(UnexpectedBlockData);
      }
      var e := ProcessBlock(block, serialize, writeOk);
      if e.Some? {
        return Some(ProcessFailed(e.value));
      }
      return None;
    }

    /** `close`: closes an open connection and forgets it; a second call, or
        a call before any connection, does nothing. `closeOk` is the outcome
        of closing the connection. */
    method Close(closeOk: bool) returns (err: Option<Error>)
      modifies this`connected
      ensures !old(connected) ==> err.None? && !connected
      ensures old(connected) && closeOk ==> err.None? && !connected
      ensures old(connected) && !closeOk ==> err == Some(CloseFailed) && connected
    {
      if connected {
        if !closeOk {
          return Some(CloseFailed);
        }
        connected := false;
      }
      return None;
    }
  }

  /** The LIB and parent numbers on this fetcher's lines are plain uint64
      differences: below block 2160 the LIB wraps around to a number near
      2^64, and block 0 names parent 2^64 - 1. */
  lemma OutputBlockNumbers(c: Network.SlotConfig, b: FireLine.LedgerBlock, payload: Token)
    ensures var r := FireLine.Derive(LibDepth, c, b, payload);
      && (b.number >= LibDepth ==> r.libNumber == b.number - LibDepth)
      && (b.number < LibDepth ==> r.libNumber == b.number - LibDepth + Two64)
      && (b.number >= 1 ==> r.parentNumber == b.number - 1)
      && (b.number == 0 ==> r.parentNumber == Two64 - 1)
  {
  }
}
