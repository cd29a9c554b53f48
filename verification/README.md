# A model of rstmdb and its guarantees

rstmdb keeps state machine instances in memory, writes every change to a segmented write-ahead log (WAL), rebuilds
itself by replaying that log, and deletes old segments once snapshots cover them. This project models that stack from
the bytes of a log record up to compaction, together with the guard language of the state machines and the framing of
the wire protocol, and proves what the layers promise each other.

How the files follow the program:

| layer | files |
|---|---|
| incremental decoding, big-endian fields | `Stream.dfy`, `Bytes.dfy` |
| log records, segment files, scan and repair | `Record.dfy`, `Segment.dfy`, `Recovery.dfy`, `WalRepair.dfy` |
| offsets, entries and their serialization, the log as a value and as an object | `Offset.dfy`, `Entry.dfy`, `Serialization.dfy`, `Wal.dfy`, `LogOrder.dfy`, `Paging.dfy`, `LiveWal.dfy` |
| guards: values, evaluation, parser, printer, round trip, meaning | `Json.dfy`, `Guard.dfy`, `GuardParser.dfy`, `GuardPrinter.dfy`, `GuardRoundTrip.dfy`, `GuardPanics.dfy`, `GuardLaws.dfy` |
| machine definitions and their JSON | `Definition.dfy`, `DefinitionJson.dfy` |
| engine and replay, its logs and answers, restarts, the engine as an object | `Engine.dfy`, `EngineSafety.dfy`, `Histories.dfy`, `Answers.dfy`, `Restart.dfy`, `LiveEngine.dfy` |
| crashes, interleaved threads and their overlaps | `Crash.dfy`, `Threads.dfy`, `ApplyOrder.dfy`, `Overlap.dfy`, `ThreadKeys.dfy` |
| snapshots, compaction, recovery | `Compaction.dfy`, `CompactionRuns.dfy`, `Snapshots.dfy`, `Stack.dfy`, `Maintenance.dfy` |
| a small machine for the lemmas that exhibit runs | `Samples.dfy` |
| wire frames | `Frame.dfy` |

Objects that the program updates in place are classes (`Segment`, `WriteAheadLog`, `StateMachineEngine`,
`SnapshotDir`, `SnapshotStore`, `Storage`, `Parser`, `Decoder`). Each of their methods is proved equal to a function on values, and
the theorems are about those functions. The source keeps two handles on the newest segment file, one for writing and
one for reading; the model has one object per file.

Library routines are a parameter: `Env` holds CRC32C, the serialization of a log entry, its inverse and the definition
checksum as arbitrary functions. `Faithful(env)`, that deserializing undoes serializing, is assumed where entries are
read back; `Serialization.FaithfulExists` builds a serialization that has this property. Nothing is assumed of the CRC
or the checksum. JSON numbers are finite decimals, which covers every integer and every finite float. Snapshot ids
(UUIDs), the lengths that file reads return and the part of unsynced bytes that survives a crash are arbitrary.

## Main results

- **Compaction preserves meaning, down to the bytes** (`Stack.FilesPreserveMeaning`): over any mix of engine calls,
  creations under way, steps of any number of compactions and requests for single snapshots, the indexed snapshots and
  the files that are left recover every live instance as the engine holds it and no deleted instance as live. A
  creation writes its record and enters the table in two steps, a compaction visits the instances one by one, and files
  are deleted one at a time. The run must keep four conditions, each of which a caller can check, and for each of which
  a run is given that breaks it alone and loses or revives an instance:
  - when a compaction computes how far it may delete, no other compaction or request has clones in hand
    (`CompactionRuns.OverlapRevives`);
  - no creation is under way when a compaction begins, and none begins before it has listed the instances
    (`CompactionRuns.ListingMisses`, `CompactionRuns.CreationMissed`);
  - all of them work with one snapshot store (`CompactionRuns.TwoStores`);
  - requests are for live instances, and none saves its snapshot while a compaction is between its listing and the
    point where it computes how far it may delete (`CompactionRuns.RequestInBetween`, `Compaction.SnapshotRevives`).

  `Stack.CrashThenRecover` and `Stack.CrashAtRest` add crashes.
- **Crash safety** (`Crash.CrashSafety`, `Crash.NothingIsLost`): over any number of operate, crash, repair and reopen
  cycles nothing acknowledged is lost and at most the call in flight is added.
- **Interleaved threads** (`Threads.InstancesFollowTheirRecords`): in every state of every orderly schedule each
  unlocked instance is the fold of its own records, and a locked one lags by at most its last. A schedule is orderly
  if no two threads create one instance, or put one machine, at the same time.
- **Every interleaving, orderly or not** (`ApplyOrder.RestIsReplay`): whenever the engine is at rest, its tables are
  what replaying the log rebuilds if and only if, for each instance and each machine, the order of the records in the
  log and the order in which they were applied agree. For overlapping creations this means that the first record in
  the log was applied last (`ApplyOrder.FirstLoggedLastApplied`), for overlapping puts the same, or that the two
  machines are equal (`ApplyOrder.FirstLoggedLastStored`).
- **Replay refines the live engine** (`Engine.ReplayRebuilds`, with `Restart.EventIdRebuilt` for last event ids) and
  **every reachable log is a chain of legal transitions** (`EngineSafety.ChainSafety`, and for interleaved threads
  `Threads.InterleavedLogsAreSafe`).
- **From the JSON to the log** (`Histories.EventsAreDeclared`, `Histories.ContextFollowsRecords`): every event record of
  every reachable log takes a transition that the JSON of its machine declares, with a guard text that holds on the
  instance's context, and every field of every context is the one that the last event carrying it says.
- **No lost updates** (`Answers.NoLostUpdate`): an event with the offset a caller read, unless its idempotency key has
  an answer already, meets a conflict of offsets if and only if any record of the instance was written in between. `Answers.ApplyAnswers` says of every event, from the definition's
  JSON, whether it is accepted and else what is answered.
- **Guard meaning** (`GuardLaws.ConjunctionHolds`, `GuardLaws.DisjunctionHolds`, `GuardLaws.OrderTexts`,
  `GuardLaws.EqualityTexts`): what guard texts hold on which contexts, stated on the texts.
- **Guard round trip** (`GuardRoundTrip.RoundTrip`, `GuardRoundTrip.ParserRange`): the parser undoes the printer for
  every tree and every spacing, and everything the parser can produce has such a text, with minimal parentheses.
  **Guard panics** (`GuardPanics.PanicsExactly`): exactly which guards make the parser panic.
- **Log order** (`LogOrder.OrderSurvives`), **filled segments** (`LogOrder.SegmentsArePacked`), **repair**
  (`WalRepair.ScanCountsLog`, `Recovery.RepairIsFinal`), **compaction at work** (`Maintenance.CompactLog`),
  **chunked reading** (`Segment.Segment.ReadAll`), **frame streaming** (`Frame.Decoder.Receive`), **paging**
  (`LiveWal.WalPaging`), **idempotency** (`EngineSafety.OneRecordPerKey`, `ThreadKeys.OneRecordPerKeyApart`),
  **transition index** (`Definition.IndexIsLinearSearch`).

## Where the code does not do what one might expect

- A CRC mismatch makes the scan lose its place: `MismatchCutsValidRecord` gives a family of files whose repair cuts
  into a valid record. A repair is final if and only if no record with a bad CRC stands in front of a valid one and
  the scan meets no oversized length, which makes it give up and leave the file alone (`RepairIsFinal`).
- Opening the WAL does not cut a torn tail, and a record appended behind one is read back if and only if there is no
  such tail (`AppendReadBack`, with zero padding as an example in `PaddingHidesAppends`). The crash theorems therefore
  repair before reopening.
- An entry too large to encode makes the log begin a new segment before it is refused; the segment stays empty, and the
  next entry goes there although the one before has room for it (`OversizedLeavesRoom`). Otherwise segments are filled
  (`AppendKeepsPacked`).
- A frame comes back from encoding and decoding if and only if it is well-formed: the 16-bit and 32-bit casts of its
  lengths are not checked (`FrameRoundTrip`).
- A segment id survives packing if and only if it is below 2 to the 24 (`PackKeepsSegment`).
- The guard parser panics if and only if whole operands lead to the literal of an equality that is a string ending
  inside an escape, or a number that no float can hold (`PanicsExactly`; `PanicExample` and `LongNumberPanics` are
  instances). It ignores text behind a complete expression (rstmdb-core/src/guard.rs:66), so `ParserRange` speaks of a
  prefix.
- A restarted engine forgets idempotency keys (`RestartForgetsKeys`), so a key can be written twice
  (`KeyWrittenAgain`). It rebuilds an instance's last event id if and only if its last event carries one or none ever
  did (`EventIdRebuilt`).
- Two threads can write one key: the cache is read before the instance lock is taken (`KeyWrittenTwice`). If no thread
  checks for a key while another one is under way with it, it is written once (`OneRecordPerKeyApart`).
- The engine's restart does not read snapshots: after a compaction it rebuilds its tables if and only if no record was
  deleted at all (`RestartRebuilds`), and finds its instances if and only if no creation record was (`RestartFindsInstances`,
  with a run in `CreationDropped`).
- A snapshot always comes back as an active instance; one of a deleted instance revives it if and only if its deletion
  record is no longer retained (`SnapshotRevives`). The compaction loops skip deleted instances, but a compaction that
  saves an old clone after another one has deleted segments does the same (`OverlapRevives`).
- Creating an instance takes no lock. A creation leaves the instance what its records say if and only if the log had
  no creation of it (`CreationSettles`). Two threads that both pass the check for existence can come to rest in
  disagreement with the log or in agreement, depending on who applies last (`TwoCreations`, with a schedule from the
  empty engine in `OverlappingCreations`). Two threads that put one machine disagree with the log if and only if the
  machines differ and the first to write is not the last to apply (`TwoPuts`, `OverlappingPuts`).
- A listing takes no lock on the whole table, so an instance can escape it and lose its records to the compaction
  (`ListingMisses`, `CreationMissed`).
- The server opens two snapshot stores on one directory (src/main.rs:119, rstmdb-server/src/handler.rs:123), and each
  overwrites the index on disk with its own (`TwoStores`).
- docs/docs/concepts/guards.md describes first-match among several transitions for the same state and event; the code
  rejects such definitions, and the model follows the code. specs/protocol.md shows another frame header than the 18
  bytes that the code reads and writes; again the model follows the code.

## Model

| member | source | states |
|---|---|---|
| `Bytes.FieldRoundTrip` | rstmdb-wal/src/entry.rs:108-130 | a big-endian field of k bytes reads back to the value that was put, for all values that fit |
| `Bytes.FieldsAt` | rstmdb-protocol/src/frame.rs:181-204 | a field of two, four or eight bytes is the number its bytes spell, the first counting most |
| `Stream.DrainAppend` | rstmdb-wal/src/segment.rs:143-157 | decoding a buffer and then more bytes is decoding them together: bytes already decoded are never decoded differently |
| `Stream.ItemsAreChained` | rstmdb-wal/src/segment.rs:143-157 | the items of a stream stand one behind the other, each decoded from the bytes where it stands |
| `Record.DecodeStable` | rstmdb-wal/src/entry.rs:139-208 | a decision of the record decoder (record or error) does not change when bytes arrive behind it |
| `Record.DecodeEncoded` | rstmdb-wal/src/entry.rs:100-208 | every well-formed record, whatever stands behind it, decodes to itself and consumes exactly its bytes |
| `Record.DecodeTorn` | rstmdb-wal/src/entry.rs:139-208 | every strict prefix of a record asks for more data |
| `Record.DecodeZeros` | rstmdb-wal/src/entry.rs:148-152 | zero padding of any length asks for more data |
| `Record.DecodeSound` | rstmdb-wal/src/entry.rs:139-208 | whatever decodes has its stored CRC right, consumes its disk size and is well-formed |
| `Record.RecordAnswers` | rstmdb-wal/src/entry.rs:139-208 | every answer of the record decoder and when it is given, read off the bytes: more, an invalid header, an oversized length, a checksum that does not hold with both values, or the record with its fields |
| `Segment.ReadImageOfRecords` | rstmdb-wal/src/segment.rs:128-160 | records followed by a torn record or zeros read back exactly, each at the sum of the sizes before it |
| `Segment.AppendReadBack` | rstmdb-wal/src/segment.rs:106-160 | a record appended behind records and a tail that decoding cannot complete is read back there if and only if the tail is empty |
| `Segment.PaddingHidesAppends` | rstmdb-wal/src/entry.rs:148-152 | for example, whatever follows four zero bytes behind the records is never read |
| `Segment.Segment.Create` | rstmdb-wal/src/segment.rs:45-61 | a new segment is empty with nothing to sync |
| `Segment.Segment.Open` | rstmdb-wal/src/segment.rs:64-78 | an opened segment has the size of its file and nothing to sync |
| `Segment.Segment.Append` | rstmdb-wal/src/segment.rs:106-116 | the encoded record goes behind the old contents and its offset is the old length; a record too large changes nothing; nothing more is on disk |
| `Segment.Segment.Sync` | rstmdb-wal/src/segment.rs:119-125 | afterwards the whole file is on disk |
| `Segment.Segment.ReadAll` | rstmdb-wal/src/segment.rs:128-160 | for any bytes and any lengths that the reads return, the result is the decoding of the whole file: same records, same offsets, same error |
| `Segment.Segment.TruncateAt` | rstmdb-wal/src/segment.rs:184-190 | exactly the bytes before the offset are left |
| `Recovery.ScanStepLag` | rstmdb-wal/src/recovery.rs:106-144 | each step of the scan shrinks the buffer; the tracked offset moves with the bytes, and lags only on a CRC mismatch |
| `Recovery.ScanTotal` | rstmdb-wal/src/recovery.rs:106-146 | on arbitrary bytes the last valid offset stays within the file, so the truncation size does not underflow, and without a CRC mismatch the tracked offset is the bytes consumed |
| `Recovery.ScanFollowsReading` | rstmdb-wal/src/recovery.rs:106-144 | on a file that reads without an error the scan counts the records that reading finds and stops where reading stops |
| `Recovery.TornTailRepair` | rstmdb-wal/src/recovery.rs:80-163 | records and a torn or zero tail: every record counted, exactly the tail cut, the true maximum sequence; a second scan cuts nothing |
| `Recovery.RepairIsFinal` | rstmdb-wal/src/recovery.rs:80-163 | on any bytes, repairing twice is repairing once, with the same records and maximum found and nothing more cut, if and only if the scan meets no oversized length and no record with a bad CRC in front of a valid one; an oversized length makes the scan fail and the repair leave the file as it is, and a misplaced bad record makes the second scan find fewer |
| `Recovery.JunkIsSkipped` | rstmdb-wal/src/recovery.rs:127-141 | bytes at which neither a header nor padding begins are skipped one by one, each counted as invalid, and the scan goes on behind them |
| `Recovery.MismatchCutsValidRecord` | rstmdb-wal/src/recovery.rs:121-128 | a family of files with a bad header in front of a valid record whose repair cuts into that record |
| `Recovery.ScanLoop` | rstmdb-wal/src/recovery.rs:106-144 | the scan loop over any bytes ends in the state that the scan function says |
| `Recovery.ScanSegment` | rstmdb-wal/src/recovery.rs:80-163 | the report is what the scan function says, and with repair exactly the contents up to the last valid record are left |
| `WalRepair.Scan` | rstmdb-wal/src/recovery.rs:47-77 | every segment is scanned once, failures included, the totals are the sums and the maximum, and each file is left as its own repair leaves it |
| `WalRepair.ScanCountsLog` | rstmdb-wal/src/recovery.rs:47-163 | whatever incomplete tails stand behind clean files: the scan counts every record of the log, cuts exactly the tails, reports the largest sequence of the log and fails nowhere |
| `WalRepair.TallyNames` | rstmdb-wal/src/recovery.rs:56-75 | on any files, exactly those whose scan gives up are listed as failed, and exactly those with bytes that are no record, or with something to cut off, as recovered |
| `WalRepair.RepairRestores` | rstmdb-wal/src/recovery.rs:80-163 | repair gives back each clean file from its version with a tail, and a second repair changes nothing |
| `Offset.PackPlain` | rstmdb-wal/src/wal.rs:65-89 | below 2 to the 24 segments, segment id and offset read back from the packed word |
| `Offset.PackKeepsSegment` | rstmdb-wal/src/wal.rs:69-76 | the segment id reads back if and only if it is below 2 to the 24 |
| `Offset.PackOrder` | rstmdb-wal/src/wal.rs:62-89 | packed offsets compare like (segment, offset) pairs |
| `Serialization.FaithfulExists` | rstmdb-wal/src/entry.rs:216-267 | whatever the CRC and the checksum, some serialization of log entries is undone by its deserialization |
| `Wal.FileLogAppend` | rstmdb-wal/src/wal.rs:228-255 | a record put behind a clean file is read back as the next entry of that file, at its packed offset |
| `Wal.LogOffsets` | rstmdb-wal/src/wal.rs:303-344 | offsets strictly increase along the whole log and none passes the end of the last file |
| `Wal.RotateKeepsLog` | rstmdb-wal/src/wal.rs:204-225 | rotation keeps the invariant and the log |
| `Wal.AppendGrowsLog` | rstmdb-wal/src/wal.rs:228-273 | a successful append adds exactly its record, in the newest segment behind the others if and only if it fits there and else at the start of one new segment; a failed one adds nothing; the invariant is kept |
| `Wal.AppendPlaces` | rstmdb-wal/src/wal.rs:228-273 | the same of the placement alone, for any files |
| `Wal.RecordOnDisk` | rstmdb-wal/src/entry.rs:100-137 | the bytes that an append writes for an entry, one by one: magic number, kind, flags, length, checksum, sequence number and payload |
| `Wal.ReopenKeepsLog` | rstmdb-wal/src/wal.rs:154-201 | reopening keeps files and log and numbers on above every sequence in the log |
| `Wal.RepairTorn` | rstmdb-wal/src/recovery.rs:80-163 | any strict prefix of a record behind a clean file is repaired away exactly |
| `Wal.CrashWhenDurable` | rstmdb-wal/src/wal.rs:258-270 | with everything synced, a crash and repair give back the same files |
| `Wal.CrashInWrite` | rstmdb-wal/src/wal.rs:228-273 | whatever prefix of an unsynced record survives, repair leaves the files before the record or the files with it complete |
| `Wal.DropKeepsInv` | rstmdb-wal/src/wal.rs:378-418 | deletion keeps the invariant and the newest segment, and leaves exactly the records from the target segment on, a suffix of the log |
| `Wal.SizesAddUp` | rstmdb-wal/src/segment.rs:101-116 | the bytes of the segment files are the sum of the sizes of the records in them |
| `LogOrder.OrderSurvives` | rstmdb-wal/src/wal.rs:154-418 | through any appends, restarts and snapshot-driven compactions, offsets and sequence numbers strictly increase along everything ever logged, the log is the end of that history, and each segment is within its limit or holds one oversized record |
| `LogOrder.SegmentIdsGrow` | rstmdb-wal/src/wal.rs:204-225 | the newest segment id never goes down, so no segment id is used twice |
| `LogOrder.AppendKeepsPacked` | rstmdb-wal/src/wal.rs:228-273 | an append leaves no two neighbouring segments whose records would have fitted into the first, if and only if it does not put its record into an idle segment although the one before had room |
| `LogOrder.SegmentsArePacked` | rstmdb-wal/src/wal.rs:228-273 | over any life in which all entries can be encoded, the first record of each segment would not have fitted into the one before |
| `LogOrder.OversizedLeavesRoom` | rstmdb-wal/src/wal.rs:236-250 | an entry too large to encode leaves an idle segment, and the next entry is put there although it fits before |
| `Paging.PageIsFull` | rstmdb-wal/src/wal.rs:303-344 | a page begins with the first record at or behind the offset, goes on without gaps, and is as long as the limit and the log allow |
| `Paging.PagingIsComplete` | rstmdb-server/src/handler.rs:840-867 | asking again from one behind the last record, with any limit of at least one, visits every record from an offset on exactly once and in order |
| `LiveWal.WalPaging` | rstmdb-wal/src/wal.rs:303-344 | the same for the log that the files of any good WAL hold |
| `LiveWal.Open` | rstmdb-wal/src/wal.rs:154-201 | opening fails if and only if some segment does not read, and else continues behind the largest sequence in the files; an empty directory gets segment 1 |
| `LiveWal.WriteAheadLog.Rotate` | rstmdb-wal/src/wal.rs:204-225 | one new empty segment behind the others, the others untouched |
| `LiveWal.WriteAheadLog.Append` | rstmdb-wal/src/wal.rs:228-273 | the files and the answer of the append, the record placed in the newest segment if it fits and in one new segment otherwise |
| `LiveWal.WriteAheadLog.ReadFrom` | rstmdb-wal/src/wal.rs:303-344 | on files of any contents the nested loops return what the reading function says, error included; on a good WAL that is exactly the first `limit` records at or behind the offset, in log order |
| `LiveWal.FailsOnDamage` | rstmdb-wal/src/wal.rs:303-344 | reading fails if and only if some file it comes to before the limit is unreadable or holds, before the limit, a record that is asked for and is no entry |
| `LiveWal.WriteAheadLog.CompactBefore` | rstmdb-wal/src/wal.rs:395-414 | exactly the segments below the target go, and their number is reported; the object stays good if and only if the newest one stays |
| `Maintenance.HandleWalRead` | rstmdb-server/src/handler.rs:840-867 | a page, with the next offset one behind its last record; a missing offset is refused and a reading error passed on |
| `Guard.SplitJoins` | rstmdb-core/src/guard.rs:111-125 | a field path is split at its dots and nowhere else |
| `Json.NormalKeeps` | rstmdb-core/src/guard.rs:376-410 | a number literal has the same value without needless zeros behind the point |
| `Guard.LookUp` | rstmdb-core/src/guard.rs:111-125 | the loop over the path parts returns what walking the path returns |
| `GuardLaws.PlainField` | rstmdb-core/src/guard.rs:111-125 | a name without dots is a key of the context, and null where there is no such key |
| `GuardLaws.DottedField` | rstmdb-core/src/guard.rs:111-125 | a dotted path is followed step by step |
| `GuardLaws.NestedField` | rstmdb-core/src/guard.rs:111-125 | a path finds the value that nested objects put there |
| `GuardLaws.FalsyExactly` | rstmdb-core/src/guard.rs:127-136 | a field counts as false for exactly null, false, zero and the empty string, array and object |
| `GuardLaws.EqualityLaws` | rstmdb-core/src/guard.rs:138-150 | reflexive on exactly the scalars, symmetric, between values of one kind, numbers equal if and only if closer than 2 to the minus 52 |
| `GuardLaws.EqAndNe` | rstmdb-core/src/guard.rs:80-87 | the two tests are complements |
| `GuardLaws.OrderLaws` | rstmdb-core/src/guard.rs:88-103 | on a number exactly one of each complementary pair of comparisons holds, those with an equals sign at the bound, and bounds are ordered; on any other value none holds |
| `GuardLaws.NumeralDenotes` | rstmdb-core/src/guard.rs:376-410 | a numeral is the number that its sign, digits and point denote |
| `GuardLaws.DecimalShifts` | rstmdb-core/src/guard.rs:152-157 | a decimal is its digits shifted by its scale |
| `GuardLaws.ConjunctionHolds` | rstmdb-core/src/guard.rs:104 | texts joined by the and operator hold if and only if every one of them, read by itself, does |
| `GuardLaws.DisjunctionHolds` | rstmdb-core/src/guard.rs:105 | texts joined by the or operator, conjunctions among them, hold if and only if some one of them does |
| `GuardLaws.NegationHolds` | rstmdb-core/src/guard.rs:106 | an exclamation mark turns a text around |
| `GuardLaws.ParenthesesHold` | rstmdb-core/src/guard.rs:269-284 | parentheses leave a text what it is |
| `GuardLaws.OrderTexts` | rstmdb-core/src/guard.rs:88-103 | the texts of the four comparisons by order, against the amount that the numeral stands for |
| `GuardLaws.EqualityTexts` | rstmdb-core/src/guard.rs:80-87 | the texts of the two comparisons for equality, for every kind of literal |
| `GuardLaws.FieldText` | rstmdb-core/src/guard.rs:72-79 | the text of a field alone holds if and only if the field is not falsy |
| `GuardParser.ParseOr` | rstmdb-core/src/guard.rs:170-187 | on every input parsing ends, stays inside the input, and an expression that parses consumes something |
| `GuardParser.ParseUnary` | rstmdb-core/src/guard.rs:204-215 | the same one level down |
| `GuardParser.ParsePrimary` | rstmdb-core/src/guard.rs:269-287 | the same for parentheses and comparisons |
| `GuardParser.TrimmedEnd` | rstmdb-core/src/guard.rs:58-67 | trimming removes exactly the white space at the end |
| `GuardParser.Parser.Disjunction` | rstmdb-core/src/guard.rs:174-187 | the loop that moves the position parses what the recursive function parses and ends at the same position |
| `GuardParser.Parser.Conjunction` | rstmdb-core/src/guard.rs:189-202 | the same for conjunctions |
| `GuardParser.Parser.Unary` | rstmdb-core/src/guard.rs:204-215 | the same for negation |
| `GuardParser.Parser.Primary` | rstmdb-core/src/guard.rs:269-287 | the same for parentheses |
| `GuardParser.Parser.Comparison` | rstmdb-core/src/guard.rs:217-267 | the same for comparisons |
| `GuardParser.Parser.Val` | rstmdb-core/src/guard.rs:319-347 | the same for literals, with the panic on a number that no JSON number can hold |
| `GuardParser.Parser.Num` | rstmdb-core/src/guard.rs:376-410 | the same for numbers |
| `GuardParser.Parser.StringValue` | rstmdb-core/src/guard.rs:349-374 | the same for strings, with the running past the end that an escape at the end causes |
| `GuardParser.Parser.Field` | rstmdb-core/src/guard.rs:289-317 | the same for field names |
| `GuardParser.ParseGuard` | rstmdb-core/src/guard.rs:58-67 | the parser object computes the parse function |
| `GuardPrinter.UnaryStands` | rstmdb-core/src/guard.rs:204-287 | wherever the text of an operand stands in a longer text, parsing there gives its tree and ends behind it |
| `GuardPrinter.AndStands` | rstmdb-core/src/guard.rs:189-202 | conjunctions parse to the left, whatever the spacing, and go on with the rest |
| `GuardPrinter.OrStands` | rstmdb-core/src/guard.rs:174-187 | disjunctions parse to the left with conjunctions binding tighter, and go on with the rest |
| `GuardRoundTrip.ParseOfText` | rstmdb-core/src/guard.rs:170-429 | parsing a printed tree gives exactly that tree and consumes all the text |
| `GuardRoundTrip.RoundTrip` | rstmdb-core/src/guard.rs:58-67 | the same through the public entry point, for ASCII text with any white space around |
| `GuardRoundTrip.MinimalKeeps` | rstmdb-core/src/guard.rs:170-287 | taking away every parenthesis that precedence and left association make needless keeps the tree |
| `GuardRoundTrip.ParserRange` | rstmdb-core/src/guard.rs:58-67 | whatever parses is a printed tree at the front of the trimmed input, and printing it with minimal parentheses parses back to the same expression |
| `GuardRoundTrip.ScanPanics` | rstmdb-core/src/guard.rs:349-374 | scanning a string leaves the input if and only if it has no unescaped quote and ends inside an escape |
| `GuardRoundTrip.PanicExample` | rstmdb-core/src/guard.rs:349-374 | a comparison with an opening quote and a backslash at the end does |
| `GuardPanics.LiteralPanics` | rstmdb-core/src/guard.rs:319-374 | a literal panics if and only if it is a string that ends inside an escape or a number beyond every float |
| `GuardPanics.PanicsExactly` | rstmdb-core/src/guard.rs:58-67 | parsing an ASCII guard panics if and only if its trimmed text begins with whole operands that lead to the literal of an equality, and that literal panics |
| `GuardPanics.ParseStaysInside` | rstmdb-core/src/guard.rs:58-67 | so an ASCII guard whose trimmed text does not end in a backslash never makes the parser leave its input |
| `GuardPanics.LongNumberPanics` | rstmdb-core/src/guard.rs:344-346 | an equality with a number of 343 digits or more panics |
| `Definition.BuildMachine` | rstmdb-core/src/definition.rs:159-230 | the nested loops with early exits build what the recursive definition builds, or fail with the same error |
| `Definition.FromRawAccepts` | rstmdb-core/src/definition.rs:159-230 | a definition is accepted if and only if initial, sources and targets are declared, guards parse, and no (source, event) pair repeats after expanding multi-source transitions |
| `Definition.IndexIsLinearSearch` | rstmdb-core/src/definition.rs:233-241 | a lookup in the index is the linear search through the raw transitions, for every state and event |
| `Definition.FromRawClosed` | rstmdb-core/src/definition.rs:159-230 | an accepted machine never leads out of its states |
| `Definition.FromJsonClosed` | rstmdb-core/src/definition.rs:149-157 | the same for definitions read from JSON, under the name and version given |
| `DefinitionJson.TransitionReads` | rstmdb-core/src/definition.rs:49-103 | a JSON value reads as a transition if and only if it spells it: one source or a list, a guard that is a string, null or left out, any other fields |
| `DefinitionJson.DefinitionReads` | rstmdb-core/src/definition.rs:105-156 | the same of whole definitions |
| `DefinitionJson.JsonReadsBack` | rstmdb-core/src/definition.rs:105-156 | a definition written as JSON reads back if and only if its metadata is not an explicit null |
| `Engine.DecideAdmissible` | rstmdb-core/src/engine.rs:196-504 | every entry that an operation writes fits the tables it was decided on: a new id, a declared transition with its guard holding, a merged context, a new machine version |
| `Engine.CommitReplays` | rstmdb-core/src/engine.rs:99-189 | committing a record live and replaying it keep equal tables equal, up to last event ids |
| `Engine.ExecKeepsInv` | rstmdb-core/src/engine.rs:196-504 | every call, rejected and cached ones included, keeps: live tables equal the replayed log |
| `Engine.ReplayRebuilds` | rstmdb-core/src/engine.rs:75-189 | after every run of calls, replaying the log from empty rebuilds the definitions and, for each instance, machine, version, state, context, lifecycle and offset |
| `Engine.Restarted` | rstmdb-core/src/engine.rs:61-96 | the engine that a restart builds is again one whose tables are its replayed log |
| `Restart.EventIdRebuilt` | rstmdb-core/src/engine.rs:158-173 | after any run, replay rebuilds an instance's last event id if and only if its last event carries one or none of its events ever did |
| `EngineSafety.ReplayIsTraced` | rstmdb-core/src/engine.rs:99-189 | each replayed instance stands where its last event, or else its creation, put it |
| `EngineSafety.ChainSafety` | rstmdb-core/src/engine.rs:406-462 | in every admissible log each event of an instance starts where its last one ended, takes a declared transition whose guard held, merges its payload into the last context and stays in the machine's states; creations start in the initial state |
| `EngineSafety.RunsAreChainSafe` | rstmdb-core/src/engine.rs:288-504 | the same for the log of every run of calls |
| `Histories.ContextFollowsRecords` | rstmdb-core/src/engine.rs:546-557 | in every log the engine can write, a context that is no object never changes, and each field of an object is what the last event of the instance carrying it says, or without one what the creation said |
| `Histories.ContextsOfRuns` | rstmdb-core/src/engine.rs:546-557 | the same of the live engine after any run |
| `Histories.EventsAreDeclared` | rstmdb-core/src/engine.rs:406-432 | every event record takes a transition that the JSON of the instance's machine, put earlier, declares from the instance's state, and whose guard text, if any, holds on the context before |
| `Histories.MachineIsRaw` | rstmdb-core/src/definition.rs:159-230 | a machine has the name, version, states and initial state of its definition |
| `Histories.CreationsAreDeclared` | rstmdb-core/src/engine.rs:315-327 | every creation record starts in the initial state that the JSON of its machine, put earlier, names |
| `Answers.TransitionsAreDeclared` | rstmdb-core/src/engine.rs:406-432 | an accepted definition leads from a state exactly where its JSON says, with exactly its guard text |
| `Answers.ApplyAnswers` | rstmdb-core/src/engine.rs:356-470 | every answer to an event, from the instance and the definition's JSON: conflicts with both values, a missing transition, a guard that does not hold, a failed log, or that it is accepted; a refused call changes nothing |
| `Answers.CreateAnswers` | rstmdb-core/src/engine.rs:285-341 | every answer to a creation, and the instance it makes |
| `Answers.DeleteAnswers` | rstmdb-core/src/engine.rs:473-503 | every answer to a deletion, and the one change it makes |
| `Answers.NobodyAnswers` | rstmdb-core/src/engine.rs:375-382 | an event for no instance is an error and changes nothing |
| `Answers.AnswersTell` | rstmdb-core/src/engine.rs:440-470 | what a successful call answers is what the instance has become and where its record stands |
| `Answers.RecordsTell` | rstmdb-core/src/engine.rs:425-438 | what a call writes holds all of what it was asked for |
| `Answers.OthersStay` | rstmdb-core/src/engine.rs:196-503 | a call leaves alone what it does not name |
| `Answers.FirstMachineStands` | rstmdb-core/src/engine.rs:196-235 | after any calls, putting a definition where there is one answers with its checksum if the checksums agree and that the version exists if not, and changes nothing |
| `Answers.DeletionIsFinal` | rstmdb-core/src/engine.rs:473-503 | after any calls a deleted instance is still deleted, and deleting it again changes nothing |
| `Answers.NoLostUpdate` | rstmdb-core/src/engine.rs:395-404 | an event with the offset that a caller read, not answered from its key, is refused for its offset or an expected state, with both values and without effect, if a record of the instance was written since, and never for its offset if not |
| `EngineSafety.OneRecordPerKey` | rstmdb-core/src/engine.rs:368-470 | in a run of one engine, each (instance, key) gains at most one event record |
| `EngineSafety.FirstResultStands` | rstmdb-core/src/engine.rs:368-374 | whatever happens in between, a call with a key already used returns the first result and changes neither log nor tables |
| `EngineSafety.RestartForgetsKeys` | rstmdb-core/src/engine.rs:61-72 | after a restart a call with a used key is decided afresh |
| `Restart.KeyWrittenAgain` | rstmdb-core/src/engine.rs:61-72 | a run, a restart and a call after which one key has two event records |
| `LiveEngine.WithWal` | rstmdb-core/src/engine.rs:61-96 | a new engine holds the replay of what reading returns, or fails with its error; over a good WAL that is everything in its files |
| `LiveEngine.StateMachineEngine.Redo` | rstmdb-core/src/engine.rs:99-189 | the in-place update of one replayed entry is the replay function |
| `LiveEngine.StateMachineEngine.PutMachine` | rstmdb-core/src/engine.rs:196-235 | tables, files and answer are those of the operation on values, on every branch |
| `LiveEngine.StateMachineEngine.CreateInstance` | rstmdb-core/src/engine.rs:288-344 | the same |
| `LiveEngine.StateMachineEngine.ApplyEvent` | rstmdb-core/src/engine.rs:358-471 | the same, with cache hit, conflicts, missing machine, missing transition, failed guard and failed write |
| `LiveEngine.StateMachineEngine.DeleteInstance` | rstmdb-core/src/engine.rs:474-504 | the same, a second deletion changing nothing |
| `LiveEngine.StateMachineEngine.GetAllInstances` | rstmdb-core/src/engine.rs:516-522 | exactly the instances that are not deleted, as many as there are, each once |
| `Crash.DoIsExec` | rstmdb-core/src/engine.rs:196-504 | an operation on the files is the operation on the log: same tables, same answer, and the log in the files grows by the same record |
| `Crash.CrashIdleSafe` | rstmdb-wal/src/recovery.rs:174-177 | a crash at rest, repair and restart keep log and tables |
| `Crash.CrashDuringSafe` | rstmdb-wal/src/wal.rs:228-273 | a crash while a record is in flight, repair and restart give the state before the operation or the state after it |
| `Crash.CrashSafety` | rstmdb-core/src/engine.rs:75-189 | over any number of operations, crashes, repairs and restarts the invariant holds and every step is safe in this sense |
| `Crash.NothingIsLost` | rstmdb-wal/src/wal.rs:228-273 | the log at any time is a prefix of the log at any later time |
| `Crash.FirstBoot` | rstmdb-wal/src/wal.rs:154-161 | an empty directory starts such a life |
| `Threads.ReplayIsFold` | rstmdb-core/src/engine.rs:99-189 | replaying a log gives each instance the fold of its own records |
| `Threads.ScheduleInv` | rstmdb-core/src/engine.rs:309-503 | every orderly schedule of check, enter, write, update and exit steps keeps the invariant |
| `Threads.InstancesFollowTheirRecords` | rstmdb-core/src/engine.rs:376-471 | in every state of an orderly schedule an unlocked instance equals the fold of its own records and a locked one lags by at most its last |
| `Threads.InterleavedLogsAreSafe` | rstmdb-core/src/engine.rs:376-503 | the log of every orderly schedule is chain safe |
| `Threads.QuietIsReplay` | rstmdb-core/src/engine.rs:75-96 | when no thread is at work in an orderly schedule, the tables are the replayed log |
| `Threads.CreationSettles` | rstmdb-core/src/engine.rs:309-341 | a creation that is written and applied leaves its instance what the records say if and only if the log had no creation of it |
| `Threads.PutSettles` | rstmdb-core/src/engine.rs:196-235 | a machine that is written and stored is the one that replay rebuilds if and only if the log had none of its name and version, or the same |
| `ApplyOrder.TablesFollowTheOrder` | rstmdb-core/src/engine.rs:196-503 | in every state of every schedule, overlaps included, each instance and machine is what its records say in the order in which they were applied, events are applied in log order, and every logged record is applied or in some thread's hand |
| `ApplyOrder.RestIsReplay` | rstmdb-core/src/engine.rs:196-503 | at rest, the tables are the replayed log if and only if the two orders agree for every instance and machine |
| `ApplyOrder.InstanceAtRest` | rstmdb-core/src/engine.rs:309-503 | for one instance, the exact condition: without events the first creation logged is the last applied; with events, the last creation applied has an event behind it, the machine of the first one and no deletion before it, and state and context were set behind it or are equal |
| `ApplyOrder.FirstLoggedLastApplied` | rstmdb-core/src/engine.rs:309-341 | however many threads create one instance and in whatever order they go on, it is at rest what replay rebuilds if and only if the creation logged first was applied last |
| `ApplyOrder.FirstLoggedLastStored` | rstmdb-core/src/engine.rs:196-235 | the same for one machine, or the machines logged first and stored last are equal |
| `Overlap.TwoCreations` | rstmdb-core/src/engine.rs:309-341 | from every quiet state, two threads that create one free id and both pass the check before either writes have a schedule that ends in disagreement with the log and one that ends in agreement, by the order of their updates |
| `Overlap.TwoPuts` | rstmdb-core/src/engine.rs:196-235 | the same for two puts of one free machine; the schedule in log order ends in agreement if and only if both put the same machine |
| `Overlap.OverlappingCreations` | rstmdb-core/src/engine.rs:309-341 | a schedule from the empty engine that ends quiet and in disagreement with its log |
| `Overlap.OverlappingPuts` | rstmdb-core/src/engine.rs:196-235 | the same for two puts of one machine |
| `ThreadKeys.OneRecordPerKeyApart` | rstmdb-core/src/engine.rs:368-470 | over every interleaving in which no thread checks for a key while another one is under way with it, each instance and key has at most one event record |
| `ThreadKeys.KeyWrittenTwice` | rstmdb-core/src/engine.rs:368-470 | a schedule of two threads that writes one key twice |
| `Compaction.SnapshotCatchesUp` | rstmdb-storage/src/store.rs:133-220 | a snapshot with older retained records applied on top is, behind the record it was taken at, the instance again |
| `Compaction.RecoveryAgrees` | rstmdb-storage/src/store.rs:133-220 | in every state that the invariant allows, snapshots and retained records recover each live instance as it is and nothing deleted as live |
| `Compaction.RunInv` | rstmdb-server/src/compaction.rs:87-122 | engine calls, halves of creations, requests and the steps of other compactions between any two steps of a compaction keep the invariant, if every step keeps the four conditions above |
| `Compaction.CompactionPreservesMeaning` | rstmdb-server/src/handler.rs:784-838 | hence recovery agrees with the live engine in every state of such a run |
| `Compaction.SnapshotRevives` | rstmdb-core/src/instance.rs:167-183 | a snapshot of any instance comes back active if and only if no deletion of it is retained |
| `Compaction.RestartFindsInstances` | rstmdb-core/src/engine.rs:75-96 | the engine's own restart finds its instances if and only if no creation record was deleted |
| `Compaction.RestartRebuilds` | rstmdb-core/src/engine.rs:75-96 | it rebuilds the tables, definitions included, if and only if no record was deleted at all |
| `CompactionRuns.CreationDropped` | rstmdb-server/src/compaction.rs:87-122 | a run with one compaction after which a restart no longer finds a live instance |
| `CompactionRuns.ListsAll` | rstmdb-core/src/engine.rs:516-522 | visited one by one and undisturbed, the instances listed are exactly the live ones, as they are |
| `CompactionRuns.OverlapRevives` | rstmdb-server/src/handler.rs:784-838 | a run with two overlapping compactions after which recovery brings back a deleted instance as live; it keeps all conditions but the first |
| `CompactionRuns.ListingMisses` | rstmdb-core/src/engine.rs:516-522 | a run in which an instance is created behind the listing and lost; it keeps all conditions but the second |
| `CompactionRuns.CreationMissed` | rstmdb-core/src/engine.rs:318-341 | the same with a creation whose record is written before the compaction begins and which enters the table after |
| `CompactionRuns.TwoStores` | rstmdb-storage/src/snapshot.rs:79-128 | a run with two stores on one directory in which a request loses the snapshot of another instance; it keeps all conditions but the third |
| `CompactionRuns.RequestInBetween` | rstmdb-server/src/handler.rs:754-782 | a run in which a request between listing and measuring makes the compaction delete the records of a new instance; it keeps all conditions but the last |
| `Snapshots.SnapshotStore.Open` | rstmdb-storage/src/snapshot.rs:49-77 | a store starts with the index that was saved last |
| `Snapshots.SnapshotStore.CreateSnapshot` | rstmdb-storage/src/snapshot.rs:79-128 | the snapshot becomes what recovery loads for its instance, if no other instance's newest snapshot has its id nothing else changes, and the index on disk becomes that of this store |
| `Snapshots.SnapshotStore.GetSnapshotMeta` | rstmdb-storage/src/snapshot.rs:177-179 | present exactly for instances with a snapshot, with the offset of the newest |
| `Snapshots.SnapshotStore.MinWalOffset` | rstmdb-storage/src/snapshot.rs:209-212 | the least offset among the newest snapshots, none if there are none |
| `Stack.OffsetIsNew` | rstmdb-wal/src/wal.rs:228-273 | on compacted files too, a new record's offset is above every offset ever given |
| `Stack.LinkedCall` | rstmdb-core/src/engine.rs:196-504 | an engine call on compacted files, or the first half of a creation, is a call of the run: same tables, same record, files equal to what the run retains |
| `Stack.LinkedDrop` | rstmdb-wal/src/wal.rs:395-414 | deleting files up to the segment of the least snapshot, or any part of the way there, leaves in the files exactly what the run retains |
| `Stack.FilesPreserveMeaning` | rstmdb-server/src/handler.rs:784-838 | from an empty directory, over any engine calls, creations under way, requests and steps of compactions that keep the four conditions above, what snapshots and remaining files recover is what the engine holds |
| `Stack.CrashThenRecover` | rstmdb-storage/src/store.rs:133-159 | a crash in the middle of a call on compacted files, repair and recovery bring back the instances before the call or those after it |
| `Stack.CrashAtRest` | rstmdb-storage/src/store.rs:133-159 | a crash at rest, for example between two deletions, repair and recovery bring back what the engine held |
| `Maintenance.Storage.ApplyWalEntry` | rstmdb-storage/src/store.rs:162-220 | the in-place update of one entry is the recovery function |
| `Maintenance.Storage.LoadSnapshots` | rstmdb-storage/src/store.rs:134-140 | exactly the newest snapshots become instances |
| `Maintenance.Storage.Recover` | rstmdb-storage/src/store.rs:133-159 | snapshots and then every record that reading returns, or its error; over a good WAL reading from the earliest offset misses none |
| `Maintenance.SnapInstance` | rstmdb-server/src/handler.rs:796-813 | a turn of the loop snapshots exactly when the newest snapshot is missing or, forced, outdated, and replaces that snapshot only |
| `Maintenance.SnapAll` | rstmdb-server/src/compaction.rs:90-104 | the loop looks at every live instance once, as steps of the run, replaces exactly the snapshots that are missing or, forced, behind their instance, and counts them |
| `Maintenance.CompactLog` | rstmdb-server/src/handler.rs:784-822 | tables unchanged; every live instance has a snapshot and, forced, one of the instance as it is; with a least snapshot offset exactly the segments below its segment are gone and counted, and without snapshots none; what snapshots and files recover is what the engine holds, and the index on disk stays that of the store |
| `Compaction.NewestIsExact` | rstmdb-storage/src/snapshot.rs:89-128 | a snapshot that is not behind its live instance shows the instance as it is |
| `Frame.FrameStable` | rstmdb-protocol/src/frame.rs:171-233 | a decision of the frame decoder does not change when bytes arrive behind it |
| `Frame.DecodeEncodedFrame` | rstmdb-protocol/src/frame.rs:120-233 | every well-formed frame, whatever stands behind it, decodes to itself and consumes exactly its bytes |
| `Frame.FrameRoundTrip` | rstmdb-protocol/src/frame.rs:120-233 | a frame survives encoding and decoding if and only if it is well-formed |
| `Frame.FrameAnswers` | rstmdb-protocol/src/frame.rs:171-233 | a frame comes back if and only if the bytes begin with a header in order, are complete and, with bit 0, match their checksum; it is then those bytes; more is asked for if and only if the header is short, or in order and the frame not complete |
| `Frame.FrameErrors` | rstmdb-protocol/src/frame.rs:171-233 | a checksum that does not hold is reported with both values and costs the whole frame; each other error is reported if and only if its test is the first to fail, and costs nothing |
| `Frame.FrameBytes` | rstmdb-protocol/src/frame.rs:120-164 | what encoding writes, byte by byte, and when it fails |
| `Frame.DeliveredIsFramed` | rstmdb-server/src/server.rs:412-454 | every frame that a stream delivers stands in it with a checksum that holds, one behind the other |
| `Frame.DrainWire` | rstmdb-protocol/src/frame.rs:171-233 | the concatenated frames and an incomplete tail decode to exactly those frames and leave exactly the tail |
| `Frame.Decoder.Extend` | rstmdb-protocol/src/codec.rs:44-46 | the data goes behind what is buffered |
| `Frame.Decoder.NextFrame` | rstmdb-protocol/src/codec.rs:54-56 | a frame is taken from the front of the buffer, where it stands with a checksum that holds; asking for more leaves the buffer untouched |
| `Frame.Decoder.Receive` | rstmdb-server/src/server.rs:412-454 | for any chunks, the frames, the error and the unread rest, which after an error is the buffer and the chunks not yet read, are those of decoding all the bytes at once, and every frame delivered stands in those bytes with a checksum that holds |
| `Frame.ReceiveFrames` | rstmdb-protocol/src/codec.rs:43-56 | any split into chunks of the encoding of well-formed frames and an incomplete tail yields exactly those frames, no error, and keeps exactly the tail |

## Left out

- TCP, TLS, tasks, the client, the command line tools, metrics and configuration: input, output and plumbing.
- Authentication, sessions, watches, batches and the other request handlers: one-branch claims, or dependent on channels outside the modelled code.
- The bytes of JSON and the text of entries: JSON is a datatype and serialization a parameter with an inverse; definitions given as JSON arrays instead of objects are not modelled.
- Rounding of floats: numbers are exact decimals; the tolerance of equality and the bound of the largest float are modelled.
- Non-ASCII guard text: the parser indexes bytes and panics inside a character; the entry-point theorems are for ASCII text.
- The fsync policies other than every-write: rotation does not sync the old segment, so weaker policies have no strong durability statement.
- Durability of file creation, of truncation during repair and of the snapshot index: assumed, together with the success of all file operations; the crash step loses unsynced record bytes only.
- `Wal::close`, statistics and `total_size`: the cached size of a reading handle goes stale, which makes the total an underestimate.
- The window between the capacity check and the rotation in `Wal::append` when several threads write: `append` is one atomic step of the thread model.
- `Storage::compact`, `IdempotencyIndex` and stored machine files: instances that recovery has touched carry offset 0, so that compaction never deletes behind them; the server compacts through the engine.
- Compaction.CompactionPreservesMeaning: compares with the tables as they are once the creations under way are in them; a call on an instance that is not yet in the table is not a step of the runs, because it fails, or is the overlap that the schedules of threads treat.
- Runs that go on after a crash with both stores reloaded: the histories begin with an empty directory and end with the crash.
- The counters and the trigger of the compaction manager: they decide when a compaction happens, and the runs allow it at any time.
- Snapshot checksums and deletion of snapshots: simple map operations.
- LiveWal.WriteAheadLog.CompactBefore: what happens after an offset above the newest segment is not modelled; the source goes on writing to a deleted file, and no snapshot has such an offset.
- Engine.ReplayRebuilds: does not cover the last event id, which replay keeps and the live engine overwrites when an event carries none; Restart.EventIdRebuilt says exactly when it is rebuilt.
- Compaction.RecoveryAgrees: does not cover the WAL offset, which recovery does not keep.
