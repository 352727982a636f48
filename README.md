# firehose-cardano block fetchers, modelled in Dafny

firehose-cardano feeds Cardano blocks into the Firehose streaming stack. Its
block fetchers follow the chain through a Cardano node. They print one
`FIRE INIT 3.0 <block type>` line, then one
`FIRE BLOCK <num> <id> <parentNum> <parentId> <lib> <timestamp-ns> <base64 payload>`
line per block. This model covers:

- the current fetcher (`cmd/blockfetcher`). It writes to standard output, puts
  the LIB 2160 blocks behind, and keeps a resumable cursor. The cursor holds up
  to 200 recent chain points, thinned out by their distance from a base slot,
  and is saved as `{slot, hex hash}` records in a cursor file. On start, the
  fetcher resumes from those points, else from a configured start point, else
  from the node's tip;
- the older fetcher (`blockfetcher`). It writes the same line bodies through
  its logger (which adds a prefix, date and source position in front of each),
  puts the LIB 108 blocks behind, and keeps no cursor;
- the Firehose accessors of the protobuf block (id, number, parent, LIB, time);
- the version string of the `firecardano` binary.

Modules: `Common` (fixed-width integers, Go's uint64/int64 wrap-around,
`Option`/`Result`, errors), `Text` (`%d` formatting, splitting a line at its
spaces and parsing the numbers back), `Hex` (lower-case hex encoding, Go-style
decoding), `Network` (slot configurations, slot to Unix time, network magic),
`Cursor` (retention rule, the cursor list, cursor-file records), `FireLine`
(the line protocol both fetchers share), `CmdBlockFetcher`,
`LegacyBlockFetcher`, `BlockExtensions`, `FireCardano`.

The fetchers are classes whose fields change in place: connection flag, cursor
list and base slot, output lines, saved cursor records. Each method is proved
against a function of the old state (`Cursor.Add`,
`CmdBlockFetcher.ProcessBlockSpec`, `CmdBlockFetcher.StartPoints`). The
properties are proved as lemmas about those functions: the cursor stays at
most 200 entries and every kept point obeys the retention rule; saving and then
loading the cursor gives back the same points in the same order; every
emitted block line reads back into exactly the block's fields.

Things the program gets from outside arrive as parameters:

- the node client: the roll-forward payload, the block fetched for a header,
  the tip, the outcome of closing;
- the block serializer with its base64 text, an opaque space-free token;
- the protocol library's table of network magics;
- what reading the cursor file gave, and whether writing it succeeded;
- the clock;
- the build-time version values.

Some consequences of the code worth knowing:

- From base 1000, slot 1015 is not retained: the distance 15 is over 10 and
  not a multiple of 10 (`Cursor.ShouldStoreExamples`).
- The list is newest first only while slots arrive in non-decreasing order
  (`Cursor.AddAllNewestFirst`). A rollback or a slot below the base can break
  the order, because the code never prunes or reorders.
- A first point at slot 0 leaves the base slot at 0. The next point then
  replaces the list again instead of being measured against a base.

## Model

| member | source | states |
|---|---|---|
| Common.Sub64 | cmd/blockfetcher/main.go:156-158 | uint64 subtraction: the plain difference when no underflow, else the difference plus 2^64 |
| Common.Wrap64 | cmd/blockfetcher/main.go:68-69 | int64 arithmetic: the result is in int64 range and congruent to the exact value modulo 2^64 |
| Text.ParseFormatUint | cmd/blockfetcher/main.go:168-177 | a `%d`-printed unsigned number parses back to itself |
| Text.ParseFormatInt | cmd/blockfetcher/main.go:175 | a `%d`-printed signed number, minus sign included, parses back to itself |
| Text.Join | cmd/firecardano/main.go:47 | the joined text starts with the first part; `Text.SplitJoin` gives the parts back |
| Text.SplitJoin | cmd/blockfetcher/main.go:168-169 | fields without spaces, joined by single spaces, split back into exactly those fields |
| Hex.Encode | cmd/blockfetcher/main.go:119 | hex text has twice as many characters as bytes, all lower-case hex digits, no space |
| Hex.Decode | cmd/blockfetcher/main.go:310-314 | decoding succeeds exactly on even-length text made of hex digits, giving half as many bytes |
| Hex.DecodeEncode | cmd/blockfetcher/main.go:119 | decoding the hex text of any bytes gives those bytes back |
| Network.SlotConfigFor | cmd/blockfetcher/main.go:205-210 | a known network gets its own slot configuration; an unknown one gets mainnet's |
| Network.SlotToBeginUnixTime | cmd/blockfetcher/main.go:67-70 | the uint64 difference, int64 cast, multiply and add compose to `zeroTime + (slot - zeroSlot) * slotLength`, reduced once to int64 |
| Network.SlotTimeAtZeroSlot | blockfetcher/main.go:41-44 | the zero slot begins exactly at the zero time |
| Network.SlotTimeStep | blockfetcher/main.go:41-44 | each next slot begins one slot length later, in int64 arithmetic |
| Network.SlotTimeExact | cmd/blockfetcher/main.go:67-70 | where the exact time fits in int64, the result is the exact time |
| Network.ResolveMagic | blockfetcher/main.go:149-158 | a non-zero magic is kept; magic 0 resolves iff the network is named in the table, to its entry; otherwise an invalid-network error naming it |
| Cursor.ShouldStore | cmd/blockfetcher/main.go:72-82 | everything is kept without a base; from a base every point within 10 slots and every 100th is kept, and beyond 1000 only every 100th |
| Cursor.ShouldStoreBands | cmd/blockfetcher/main.go:72-82 | from a non-zero base: every slot within 10, every 10th up to 1000, every 100th beyond, each an if-and-only-if |
| Cursor.ShouldStoreBeforeBase | cmd/blockfetcher/main.go:77-81 | a slot before the base is retained iff its wrapped uint64 distance is a multiple of 100 |
| Cursor.ShouldStoreExamples | cmd/blockfetcher/main.go:72-82 | sample densities: 1000-1010, 1020, 2000 and 5000 retained from base 1000; 1015 and 5050 not |
| Cursor.Add | cmd/blockfetcher/main.go:84-98 | the base becomes the point's slot only while it is 0; the point is dropped or becomes the newest entry; a list within 200 stays within 200 |
| Cursor.AddCases | cmd/blockfetcher/main.go:84-98 | base 0: the point replaces the list and becomes the base; not retained: nothing changes; retained: prepended, the base unchanged, the rest shifted and cut to 200 |
| Cursor.AddNonEmpty | cmd/blockfetcher/main.go:84-98 | after a point is added, the cursor is never empty |
| Cursor.AddValid | cmd/blockfetcher/main.go:84-98 | adding a point keeps the cursor invariant: at most 200 entries, each at a retained distance from the base |
| Cursor.AddAllValid | cmd/blockfetcher/main.go:84-98 | the invariant holds after any sequence of added points |
| Cursor.AddAllKeepsBase | cmd/blockfetcher/main.go:85-89 | once the base slot is non-zero, no later point moves it |
| Cursor.FirstPointFixesBase | cmd/blockfetcher/main.go:85-89 | from an empty cursor, the base is the first point's slot |
| Cursor.AddNewestFirst | cmd/blockfetcher/main.go:91-92 | prepending a point no older than the list keeps it newest first |
| Cursor.AddAllNewestFirst | cmd/blockfetcher/main.go:91-96 | points added in non-decreasing slot order leave the list newest first |
| Cursor.ToRecord | cmd/blockfetcher/main.go:117-120 | a record keeps the point's slot, and its hash text is lower-case hex that decodes back to the point's hash |
| Cursor.ToRecords | cmd/blockfetcher/main.go:114-121 | one record per point, in order, each keeping the slot and a lower-case hex hash that decodes back |
| Cursor.FromToRecords | cmd/blockfetcher/main.go:114-121 | loading the records of saved points gives back the same points in the same order |
| Cursor.FromRecords | cmd/blockfetcher/main.go:309-317 | loading yields at most one point per record, and exactly one per record when every hash is valid hex |
| Cursor.FromRecordsOne | cmd/blockfetcher/main.go:310-316 | one record gives its point when its hash is valid hex, and nothing otherwise |
| Cursor.FromRecordsAppend | cmd/blockfetcher/main.go:309-317 | loading two stretches of records gives the points of the first followed by those of the second: bad records are skipped, good ones kept in file order |
| FireLine.InitLine | cmd/blockfetcher/main.go:149-151 | the line is `FIRE INIT 3.0 ` and the block type, and a space-free block type splits back out as the fourth field |
| FireLine.Derive | cmd/blockfetcher/main.go:153-160 | the number and payload are the block's; the ids are lower-case hex that decodes back to the block and parent hashes; parent and LIB are exact below the number when no underflow; the timestamp is the exact slot begin time in ns, wrapped once to int64 |
| FireLine.Line | cmd/blockfetcher/main.go:168-177 | with space-free hashes, the line splits into the tag and exactly its seven fields |
| FireLine.LineStartsWithTag | cmd/blockfetcher/main.go:168-169 | every block line is `FIRE BLOCK ` followed by the space-joined fields |
| FireLine.OutputBlock | cmd/blockfetcher/main.go:162-165 | the line is produced iff serialization succeeded; otherwise the error is the serialization failure |
| FireLine.OutputBlockReadsBack | cmd/blockfetcher/main.go:153-179 | the line's fields read back as number, hash, uint64 number-1, parent hash, uint64 number-LIB depth, int64 timestamp in ns, payload |
| FireLine.TimestampFormula | cmd/blockfetcher/main.go:159-160 | where the exact slot begin time (ms) times 1,000,000 fits in int64, the timestamp is exactly that |
| CmdBlockFetcher.Config.constructor | cmd/blockfetcher/main.go:23-32 | the configuration holds the eight given settings |
| CmdBlockFetcher.Config.SetDefaults | cmd/blockfetcher/main.go:43-53 | default address only when neither address nor socket path is set; default network and pipeline limit when unset; nothing else changes |
| CmdBlockFetcher.ProcessBlockSpec | cmd/blockfetcher/main.go:274-291 | fails iff serialization fails, and then changes nothing; on success exactly one line is appended; no cursor change without a cursor file; a rewritten file holds the records of the new cursor |
| CmdBlockFetcher.ProcessBlockSerializeFailure | cmd/blockfetcher/main.go:274-277 | an unserializable block writes no line and leaves the cursor and cursor file unchanged |
| CmdBlockFetcher.ProcessBlockSuccess | cmd/blockfetcher/main.go:274-291 | a serializable block always succeeds and appends exactly its line; the cursor advances only with a cursor file; a failed write keeps the old file |
| CmdBlockFetcher.StartPoints | cmd/blockfetcher/main.go:305-341 | decodable cursor points win; without any, a configured slot and hash give that one point or a bad-hash error, and otherwise the tip or a tip error; a success is never empty |
| CmdBlockFetcher.ResumeFromSavedCursor | cmd/blockfetcher/main.go:305-321 | after a block is saved to the cursor file, the start points are exactly the in-memory cursor, whatever the start point or the tip |
| CmdBlockFetcher.DecodeRecords | cmd/blockfetcher/main.go:308-317 | the loop with `continue` yields exactly `Cursor.FromRecords` of the records: the decodable ones as points in file order |
| CmdBlockFetcher.CursorRecords | cmd/blockfetcher/main.go:114-121 | one record per point, same order, same slot, a lower-case hex hash decoding back to the point's hash |
| CmdBlockFetcher.OutputBlockNumbers | cmd/blockfetcher/main.go:156-158 | below block 2160 the LIB wraps to number-2160+2^64, and block 0 names parent 2^64-1 |
| CmdBlockFetcher.BlockFetcher.constructor | cmd/blockfetcher/main.go:205-223 | slot configuration of the network, mainnet if unknown; not connected; empty cursor |
| CmdBlockFetcher.BlockFetcher.Init | cmd/blockfetcher/main.go:149-151 | appends the init line for the Cardano block type to standard output |
| CmdBlockFetcher.BlockFetcher.AddCursorPoint | cmd/blockfetcher/main.go:84-98 | the new cursor is `Cursor.Add` of the old one, and the cursor invariant is kept |
| CmdBlockFetcher.BlockFetcher.ProcessBlock | cmd/blockfetcher/main.go:274-291 | output, cursor, saved records and error are those of `ProcessBlockSpec` on the old state |
| CmdBlockFetcher.BlockFetcher.ResolveNetworkMagic | cmd/blockfetcher/main.go:293-303 | the magic and the error follow `ResolveMagic`; with magic 0 the resolving message is printed first, even when resolution then fails |
| CmdBlockFetcher.BlockFetcher.GetStartPoints | cmd/blockfetcher/main.go:305-341 | the decodable cursor points in file order when there are any; else the decoded start point, or a bad-hash error; else the tip, or a tip error; never an empty list |
| CmdBlockFetcher.BlockFetcher.RollForward | cmd/blockfetcher/main.go:343-375 | other data, no connection and a failed fetch are errors that change nothing; otherwise the block is processed and its error wrapped |
| CmdBlockFetcher.BlockFetcher.Close | cmd/blockfetcher/main.go:468-477 | closes and forgets an open connection; a failed close returns an error and keeps it; without one, nothing happens |
| LegacyBlockFetcher.Config.constructor | blockfetcher/main.go:22-27 | the configuration holds the four given settings |
| LegacyBlockFetcher.OutputBlockNumbers | blockfetcher/main.go:64-69 | below block 108 the LIB wraps to a number above the block's own; block 0 names parent 2^64-1 |
| LegacyBlockFetcher.BlockFetcher.constructor | blockfetcher/main.go:114-132 | slot configuration of the network; for an unknown network, mainnet's with the fallback warning as the only log line; not connected |
| LegacyBlockFetcher.BlockFetcher.Init | blockfetcher/main.go:60-62 | appends the init line to the log |
| LegacyBlockFetcher.BlockFetcher.ProcessBlock | blockfetcher/main.go:142-147 | appends exactly the block's line with LIB depth 108, or returns the serialization error and logs nothing |
| LegacyBlockFetcher.BlockFetcher.ResolveNetworkMagic | blockfetcher/main.go:149-158 | the magic and the error follow `ResolveMagic`, without printing anything |
| LegacyBlockFetcher.BlockFetcher.RollForward | blockfetcher/main.go:284-310 | other data is ignored without error; no connection and a failed fetch are errors; otherwise the block's line or its unwrapped error |
| LegacyBlockFetcher.BlockFetcher.Close | blockfetcher/main.go:386-394 | closing an open connection logs success but keeps the connection; a failed close is an error |
| BlockExtensions.BlockId | types/pb/sf/cardano/type/v1/block_extensions.go:12-17 | empty iff there is no header or no hash; otherwise lower-case hex text that decodes back to the hash |
| BlockExtensions.BlockNumber | types/pb/sf/cardano/type/v1/block_extensions.go:19-24 | the header height, 0 without a header |
| BlockExtensions.ParentId | types/pb/sf/cardano/type/v1/block_extensions.go:26-30 | always empty |
| BlockExtensions.ParentNumber | types/pb/sf/cardano/type/v1/block_extensions.go:32-38 | 0 for block 0, otherwise one below the block number |
| BlockExtensions.LibNumber | types/pb/sf/cardano/type/v1/block_extensions.go:50-58 | 0 up to block 108, otherwise 108 below the block number |
| BlockExtensions.LibParentNumberOrdered | types/pb/sf/cardano/type/v1/block_extensions.go:32-58 | LIB <= parent <= number: the guarded accessors never underflow |
| BlockExtensions.BlockTime | types/pb/sf/cardano/type/v1/block_extensions.go:40-47 | a positive ms timestamp splits into seconds and whole-ms nanoseconds below 1e9 that add back to it; 0 gives the clock's time |
| FireCardano.Labels | cmd/firecardano/main.go:34-41 | one label for a commit of at least 7 characters, one for a non-empty date; the commit label first, the date label last |
| FireCardano.VersionString | cmd/firecardano/main.go:33-48 | starts with the version, and is the bare version iff the commit is shorter than 7 and the date is empty |
| FireCardano.VersionStringCases | cmd/firecardano/main.go:33-48 | the four shapes: bare; `(Commit abcdefg)`; `(Built date)`; `(Commit abcdefg, Built date)` |
| FireCardano.CommitTruncated | cmd/firecardano/main.go:35-37 | only the first seven characters of the commit show |

## Left out

- Network client: connecting, dialling, keep-alive, the chain-sync loop, `start`, `Run`, signal handling and goroutines. These are I/O and concurrency; what they return reaches the model as parameters.
- `buildChainSyncConfig` and the roll-backward handlers: they only pass settings to the protocol library or write a log line. A rollback does not prune the cursor in the source either.
- `serializeBlock` and base64 encoding: the protobuf encoding belongs to foreign libraries. The serialized text is an opaque space-free token, or a failure.
- `loadCursorState` and the JSON encoding in `saveCursorState`: file I/O and JSON. Reading gives the parsed records or nothing; writing either replaces the saved records or leaves them as they were. Partial writes are not modelled.
- `parseFlags` and `loadConfig`: command-line and environment parsing. This includes copying the newest cursor point into the start slot and hash. The parsed configuration is a constructor argument.
- Lines written to the standard-error logger of `cmd/blockfetcher` (warnings, progress messages): diagnostics only.
- LegacyBlockFetcher.BlockFetcher.Init, LegacyBlockFetcher.BlockFetcher.ProcessBlock and LegacyBlockFetcher.BlockFetcher.RollForward: the log holds the line bodies. The older fetcher's logger writes to standard output with a `[BlockFetcher] ` prefix, the date, the time and the source position, so its emitted lines do not begin with `FIRE`. The prefix depends on the clock and is left out.
- `PrintBlockInfo` of `blockfetcher/main.go`: diagnostic printing of era and transaction details, never called on the block path.
- `AsRef` of the protobuf block: it only builds a block reference from `BlockId` and `BlockNumber`.
- The `firecardano` command tree, console reader and codec: outside the fetchers. The decoder of the line protocol lies outside the modelled files.
- FireCardano.VersionString and FireCardano.Labels: Go's `len(commit)` and `commit[0:7]` count bytes; the model counts characters, so they agree only on ASCII commits (as hex commit hashes are).
- BlockExtensions.BlockTime: the clock is a parameter `now`; the result is seconds and nanoseconds, not a `time.Time` with a location.
- LegacyBlockFetcher.BlockFetcher.RollForward: a fetch that returns no block and no error (skipped silently in the source) is not distinguished from a failed fetch.
- CmdBlockFetcher.BlockFetcher.RollForward: the same case. The source would pass a nil block on and fail there; the model reports a failed fetch.
- Hex.Decode: the error value of `hex.DecodeString` (which byte was invalid) is reduced to "no value".
