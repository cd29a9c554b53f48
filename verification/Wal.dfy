/**
 The write-ahead log as a value: segment files in ascending id order, the last one being written to. Appending,
 rotation, reopening and prefix deletion, and what each does to the log that the files hold.
 */
module Wal {
  import opened Common
  import opened Bytes
  import opened Stream
  import opened Record
  import opened Segment
  import opened Recovery
  import opened Entry
  import opened Offset

  /** A segment file: its contents, and how much of it is known to be on disk. */
  datatype SegFile = SegFile(id: nat, data: Buffer, synced: nat)

  datatype WalState = WalState(files: seq<SegFile>, nextSequence: nat, maxSize: nat)

  // ---------------------------------------------------------------------------------------------------------------
  // The log a WAL holds
  // ---------------------------------------------------------------------------------------------------------------

  function FileTrace(env: Env, data: Buffer): Trace<WalRecord, WalError> {
    DecoderIncremental(env.crc);
    Drain(Decoder(env.crc), data, 0)
  }

  function FileItems(env: Env, data: Buffer): Records { Items(FileTrace(env, data)) }

  function LogRecordOf(env: Env, id: nat, item: Positioned<WalRecord>): LogRecord {
    var entry := match env.deserialize(item.item.payload) case Some(e) => e case None => Checkpoint(0);
    LogRecord(item.item.header.sequence, Pack(id, item.pos), entry)
  }

  function ToLog(env: Env, id: nat, items: Records): (log: Log)
    ensures |log| == |items| && forall i :: 0 <= i < |items| ==> log[i] == LogRecordOf(env, id, items[i])
  {
    if items == [] then [] else ToLog(env, id, items[..|items| - 1]) + [LogRecordOf(env, id, items[|items| - 1])]
  }

  function FileLog(env: Env, f: SegFile): Log { ToLog(env, f.id, FileItems(env, f.data)) }

  function LogOf(env: Env, files: seq<SegFile>): Log {
    if files == [] then [] else LogOf(env, files[..|files| - 1]) + FileLog(env, files[|files| - 1])
  }

  /** A file of whole records whose payloads are entries. */
  ghost predicate Clean(env: Env, data: Buffer) {
    && End(FileTrace(env, data)) == Dry([])
    && forall i :: 0 <= i < |FileItems(env, data)| ==> env.deserialize(FileItems(env, data)[i].item.payload).Some?
  }

  // ---------------------------------------------------------------------------------------------------------------
  // Operations
  // ---------------------------------------------------------------------------------------------------------------

  function Last(w: WalState): SegFile
    requires w.files != []
  {
    w.files[|w.files| - 1]
  }

  /** `rotate_segment`: a new empty file, one id above the largest. */
  function Rotate(w: WalState): WalState
    requires w.files != []
  {
    w.(files := w.files + [SegFile(Last(w).id + 1, [], 0)])
  }

  function RotateFor(w: WalState, recordSize: nat): (w': WalState)
    requires w.files != []
    ensures w'.files != []
  {
    if |Last(w).data| + recordSize <= w.maxSize then w else Rotate(w)
  }

  function RecordFor(env: Env, w: WalState, entry: WalEntry): WalRecord {
    NewRecord(env.crc, EntryTypeOf(entry), w.nextSequence, env.serialize(entry))
  }

  function WithLast(w: WalState, f: SegFile): WalState
    requires w.files != []
  {
    w.(files := w.files[..|w.files| - 1] + [f])
  }

  datatype Appended = Appended(wal: WalState, result: Result<(nat, nat), WalError>)

  /**
   The part of `append` up to the write. The sequence number is taken and the segment rotated first, so both stay
   changed when the payload turns out too large to encode.
   */
  function Write(env: Env, w: WalState, entry: WalEntry): (a: Appended)
    requires w.files != []
    ensures a.wal.files != []
  {
    var record := RecordFor(env, w, entry);
    var w1 := RotateFor(w.(nextSequence := w.nextSequence + 1), DiskSize(record));
    match Encode(record)
    case Err(e) => Appended(w1, Err(e))
    case Ok(bytes) =>
      var f := Last(w1);
      Appended(WithLast(w1, f.(data := f.data + bytes)), Ok((w.nextSequence, Pack(f.id, |f.data|))))
  }

  function SyncLast(w: WalState): WalState
    requires w.files != []
  {
    WithLast(w, Last(w).(synced := |Last(w).data|))
  }

  /** `append` under the fsync-every-write policy. */
  function Append(env: Env, w: WalState, entry: WalEntry): (a: Appended)
    requires w.files != []
    ensures a.wal.files != []
  {
    var a := Write(env, w, entry);
    if a.result.Ok? then Appended(SyncLast(a.wal), a.result) else a
  }

  /** `open` on the files found on disk. */
  function Reopen(env: Env, files: seq<SegFile>, maxSize: nat): WalState {
    if files == [] then WalState([SegFile(1, [], 0)], 1, maxSize)
    else WalState(files, MaxLogSequence(LogOf(env, files)) + 1, maxSize)
  }

  function MaxLogSequence(log: Log): nat {
    if log == [] then 0 else Max(MaxLogSequence(log[..|log| - 1]), log[|log| - 1].sequence)
  }

  /** `compact_before`: the files below the target segment go. */
  function DropBelow(files: seq<SegFile>, target: nat): (kept: seq<SegFile>)
    ensures |kept| <= |files|
  {
    if files != [] && files[0].id < target then DropBelow(files[1..], target) else files
  }

  // ---------------------------------------------------------------------------------------------------------------
  // Invariant
  // ---------------------------------------------------------------------------------------------------------------

  /** Segments stay within the limit, except that one oversized record may have a segment to itself. */
  ghost predicate WithinCapacity(env: Env, f: SegFile, maxSize: nat) {
    |f.data| <= maxSize || |FileItems(env, f.data)| == 1
  }

  ghost predicate GoodFile(env: Env, f: SegFile, maxSize: nat) {
    && Clean(env, f.data) && WithinCapacity(env, f, maxSize)
    && 1 <= f.id < MAX_SEGMENT && |f.data| < SEGMENT_SPAN
  }

  ghost predicate GoodFiles(env: Env, files: seq<SegFile>, maxSize: nat) {
    && (forall i :: 0 <= i < |files| ==> GoodFile(env, files[i], maxSize))
    && (forall i, j :: 0 <= i < j < |files| ==> files[i].id < files[j].id)
  }

  /** Every byte written is on disk. */
  ghost predicate Durable(files: seq<SegFile>) {
    forall i :: 0 <= i < |files| ==> files[i].synced == |files[i].data|
  }

  ghost predicate InLogOrder(log: Log) {
    forall i, j :: 0 <= i < j < |log| ==> log[i].sequence < log[j].sequence && log[i].offset < log[j].offset
  }

  ghost predicate SequencesBelow(log: Log, bound: nat) {
    forall i :: 0 <= i < |log| ==> 1 <= log[i].sequence < bound
  }

  ghost predicate WalInv(env: Env, w: WalState) {
    && w.files != [] && GoodFiles(env, w.files, w.maxSize) && w.maxSize < SEGMENT_SPAN
    && 1 <= w.nextSequence < WORD
    && InLogOrder(LogOf(env, w.files)) && SequencesBelow(LogOf(env, w.files), w.nextSequence)
  }

  /** Neither segment ids nor sequence numbers have run out. */
  ghost predicate Room(w: WalState)
    requires w.files != []
  {
    Last(w).id + 1 < MAX_SEGMENT && w.nextSequence + 1 < WORD
  }

  // ---------------------------------------------------------------------------------------------------------------
  // One file
  // ---------------------------------------------------------------------------------------------------------------

  lemma EmptyIsClean(env: Env)
    ensures Clean(env, []) && FileItems(env, []) == []
  {
    hide Decode, Drain, Items, End;
    DecoderIncremental(env.crc);
    ShortAsksForMore(env.crc, []);
    DrainDry(Decoder(env.crc), [], 0);
  }

  /** Bytes of a record behind a clean file: the file's records, then the record or the torn rest of it. */
  lemma BehindClean(env: Env, data: Buffer, more: Buffer)
    requires End(FileTrace(env, data)) == Dry([])
    ensures Incremental(Decoder(env.crc))
    ensures FileItems(env, data + more) == FileItems(env, data) + Items(Drain(Decoder(env.crc), more, |data|))
    ensures End(FileTrace(env, data + more)) == End(Drain(Decoder(env.crc), more, |data|))
  {
    hide Decode, Drain, Items, End, Resume;
    DecoderIncremental(env.crc);
    DrainAppend(Decoder(env.crc), data, more, 0);
    ResumeItems(Decoder(env.crc), FileTrace(env, data), more, |data|);
    assert [] + more == more;
  }

  lemma FileAppend(env: Env, data: Buffer, r: WalRecord)
    requires Clean(env, data) && WellFormed(env.crc, r) && env.deserialize(r.payload).Some?
    ensures Clean(env, data + Encode(r).value)
    ensures FileItems(env, data + Encode(r).value) == FileItems(env, data) + [At(|data|, r)]
  {
    hide Decode, Drain, Items, End, Header;
    var bytes := Encode(r).value;
    BehindClean(env, data, bytes);
    DecodeEncoded(env.crc, r, []);
    ShortAsksForMore(env.crc, []);
    DrainCons(Decoder(env.crc), bytes, r, [], |data|);
    DrainDry(Decoder(env.crc), [], |data| + |bytes|);
    assert bytes + [] == bytes;
  }

  lemma FileTorn(env: Env, data: Buffer, r: WalRecord, k: nat)
    requires Clean(env, data) && WellFormed(env.crc, r) && k < DiskSize(r)
    ensures var torn := Encode(r).value[..k];
            FileItems(env, data + torn) == FileItems(env, data) && End(FileTrace(env, data + torn)) == Dry(torn)
  {
    hide Decode, Drain, Items, End, Header;
    var torn := Encode(r).value[..k];
    BehindClean(env, data, torn);
    DecodeTorn(env.crc, r, k);
    DrainDry(Decoder(env.crc), torn, |data|);
  }

  /** Repair gives back a clean file from any torn version of it, and leaves a clean one alone. */
  lemma RepairTorn(env: Env, data: Buffer, r: WalRecord, k: nat)
    requires Clean(env, data) && WellFormed(env.crc, r) && k < DiskSize(r)
    ensures Repaired(env.crc, data + Encode(r).value[..k]) == data
  {
    hide Decode, Drain, Items, End, Header, Repaired;
    FileTorn(env, data, r, k);
    DecoderIncremental(env.crc);
    RepairCutsTail(env.crc, data, Encode(r).value[..k]);
  }

  lemma RepairClean(env: Env, data: Buffer)
    requires Clean(env, data)
    ensures Repaired(env.crc, data) == data
  {
    hide Decode, Drain, Items, End, Repaired;
    DecoderIncremental(env.crc);
    assert data + [] == data;
    RepairCutsTail(env.crc, data, []);
  }

  lemma ToLogAppend(env: Env, id: nat, items: Records, x: Positioned<WalRecord>)
    ensures ToLog(env, id, items + [x]) == ToLog(env, id, items) + [LogRecordOf(env, id, x)]
  {
    assert (items + [x])[..|items|] == items;
  }

  /** What the engine reads back is the entry that was appended. */
  lemma FileLogAppend(env: Env, f: SegFile, sequence: nat, entry: WalEntry)
    requires Faithful(env) && Clean(env, f.data) && sequence < WORD
    requires |env.serialize(entry)| <= MAX_RECORD_SIZE
    ensures var r := NewRecord(env.crc, EntryTypeOf(entry), sequence, env.serialize(entry));
            var f' := f.(data := f.data + Encode(r).value);
            && WellFormed(env.crc, r) && Clean(env, f'.data)
            && FileItems(env, f'.data) == FileItems(env, f.data) + [At(|f.data|, r)]
            && FileLog(env, f') == FileLog(env, f) + [LogRecord(sequence, Pack(f.id, |f.data|), entry)]
  {
    hide Encode, Clean, FileItems, ToLog;
    var r := NewRecord(env.crc, EntryTypeOf(entry), sequence, env.serialize(entry));
    FileAppend(env, f.data, r);
    ToLogAppend(env, f.id, FileItems(env, f.data), At(|f.data|, r));
  }

  // ---------------------------------------------------------------------------------------------------------------
  // Order
  // ---------------------------------------------------------------------------------------------------------------

  ghost predicate OffsetsWithin(log: Log, lo: nat, hi: nat) {
    && (forall i :: 0 <= i < |log| ==> lo <= log[i].offset < hi)
    && (forall i, j :: 0 <= i < j < |log| ==> log[i].offset < log[j].offset)
  }

  lemma FileOffsets(env: Env, f: SegFile)
    requires f.id < MAX_SEGMENT && |f.data| < SEGMENT_SPAN
    ensures OffsetsWithin(FileLog(env, f), f.id * SEGMENT_SPAN, f.id * SEGMENT_SPAN + |f.data|)
  {
    hide Decode, Drain, Items, FileItems, Pack;
    var items := FileItems(env, f.data);
    FilePositions(env, f.data);
    forall i | 0 <= i < |items| ensures FileLog(env, f)[i].offset == f.id * SEGMENT_SPAN + items[i].pos {
      PackPlain(f.id, items[i].pos);
    }
  }

  lemma FilePositions(env: Env, data: Buffer)
    ensures Ordered(FileItems(env, data), 0, |data|)
  {
    DecoderIncremental(env.crc);
    DrainPositions(Decoder(env.crc), data, 0);
  }

  /** Along the whole log offsets increase, and none passes the end of the last file. */
  lemma {:induction false} LogOffsets(env: Env, files: seq<SegFile>, maxSize: nat)
    requires files != [] && GoodFiles(env, files, maxSize)
    ensures var last := files[|files| - 1];
            OffsetsWithin(LogOf(env, files), files[0].id * SEGMENT_SPAN, last.id * SEGMENT_SPAN + |last.data|)
  {
    hide FileLog, Clean, WithinCapacity;
    var n := |files| - 1;
    FileOffsets(env, files[n]);
    if n == 0 {
      assert LogOf(env, files) == FileLog(env, files[0]);
    } else {
      var before := files[..n];
      assert GoodFiles(env, before, maxSize);
      LogOffsets(env, before, maxSize);
      assert before[n - 1].id < files[n].id;
    }
  }

  lemma {:induction false} LogOfConcat(env: Env, a: seq<SegFile>, b: seq<SegFile>)
    ensures LogOf(env, a + b) == LogOf(env, a) + LogOf(env, b)
    decreases |b|
  {
    hide FileLog;
    if b == [] {
      assert a + b == a;
    } else {
      assert (a + b)[..|a + b| - 1] == a + b[..|b| - 1];
      LogOfConcat(env, a, b[..|b| - 1]);
    }
  }

  lemma LogOfSplit(env: Env, files: seq<SegFile>, k: nat)
    requires k <= |files|
    ensures LogOf(env, files) == LogOf(env, files[..k]) + LogOf(env, files[k..])
  {
    assert files == files[..k] + files[k..];
    LogOfConcat(env, files[..k], files[k..]);
  }

  lemma LogOfSingle(env: Env, f: SegFile)
    ensures LogOf(env, [f]) == FileLog(env, f)
  {
    assert [f][..0] == [];
  }

  // ---------------------------------------------------------------------------------------------------------------
  // Append
  // ---------------------------------------------------------------------------------------------------------------

  /** A fresh empty segment changes nothing in the log. */
  lemma RotateKeepsLog(env: Env, w: WalState)
    requires WalInv(env, w) && Last(w).id + 1 < MAX_SEGMENT
    ensures WalInv(env, Rotate(w)) && LogOf(env, Rotate(w).files) == LogOf(env, w.files)
  {
    hide Clean, FileItems, LogOf;
    var f := SegFile(Last(w).id + 1, [], 0);
    EmptyIsClean(env);
    LogOfConcat(env, w.files, [f]);
    LogOfSingle(env, f);
    assert FileLog(env, f) == [];
  }

  /** The state that a record is written into: it fits, or the segment is empty. */
  ghost predicate Ready(w: WalState, size: nat)
    requires w.files != []
  {
    |Last(w).data| + size <= w.maxSize || Last(w).data == []
  }

  lemma RotateForReady(env: Env, w: WalState, size: nat)
    requires WalInv(env, w) && Last(w).id + 1 < MAX_SEGMENT
    ensures var w' := RotateFor(w, size);
            && WalInv(env, w') && LogOf(env, w'.files) == LogOf(env, w.files) && Ready(w', size)
            && w'.nextSequence == w.nextSequence && w'.maxSize == w.maxSize
            && (w'.files == w.files || w' == Rotate(w))
  {
    hide Clean, FileItems, LogOf;
    RotateKeepsLog(env, w);
  }

  lemma BumpSequence(env: Env, w: WalState)
    requires WalInv(env, w) && w.nextSequence + 1 < WORD
    ensures WalInv(env, w.(nextSequence := w.nextSequence + 1))
    ensures SequencesBelow(LogOf(env, w.files), w.nextSequence)
  {
    hide Clean, FileItems, LogOf;
  }

  lemma LogOfWithLast(env: Env, w: WalState, f: SegFile)
    requires w.files != []
    ensures LogOf(env, WithLast(w, f).files) == LogOf(env, w.files[..|w.files| - 1]) + FileLog(env, f)
  {
    hide FileLog;
    var before := w.files[..|w.files| - 1];
    assert (before + [f])[..|before|] == before;
  }

  lemma GoodWithLast(env: Env, files: seq<SegFile>, f: SegFile, maxSize: nat)
    requires files != [] && GoodFiles(env, files, maxSize) && GoodFile(env, f, maxSize)
    requires f.id == files[|files| - 1].id
    ensures GoodFiles(env, files[..|files| - 1] + [f], maxSize)
  {
    hide GoodFile;
  }

  /** The state with a record's bytes put behind the last file. */
  function PutBytes(w: WalState, bytes: Buffer, synced: nat): WalState
    requires w.files != []
  {
    WithLast(w, SegFile(Last(w).id, Last(w).data + bytes, synced))
  }

  /** Writing a record whose number is new into a segment that is ready for it extends the log by that record. */
  lemma WriteRecord(env: Env, w: WalState, sequence: nat, entry: WalEntry, synced: nat)
    requires Faithful(env) && WalInv(env, w) && |env.serialize(entry)| <= MAX_RECORD_SIZE
    requires 1 <= sequence < w.nextSequence && SequencesBelow(LogOf(env, w.files), sequence)
    requires Ready(w, RECORD_HEADER_SIZE + |env.serialize(entry)|)
    ensures var r := NewRecord(env.crc, EntryTypeOf(entry), sequence, env.serialize(entry));
            && WellFormed(env.crc, r) && Encode(r).Ok? && WalInv(env, PutBytes(w, Encode(r).value, synced))
            && LogOf(env, PutBytes(w, Encode(r).value, synced).files)
            == LogOf(env, w.files) + [LogRecord(sequence, Pack(Last(w).id, |Last(w).data|), entry)]
  {
    hide Encode, PutBytes, LogOf, GoodFiles, Pack;
    var r := NewRecord(env.crc, EntryTypeOf(entry), sequence, env.serialize(entry));
    var f := Last(w);
    EncodedSize(r);
    WriteKeepsFiles(env, w, sequence, entry, synced);
    WriteKeepsOrder(env, w, PutBytes(w, Encode(r).value, synced), LogRecord(sequence, Pack(f.id, |f.data|), entry));
  }

  lemma WriteKeepsFiles(env: Env, w: WalState, sequence: nat, entry: WalEntry, synced: nat)
    requires Faithful(env) && w.files != [] && |env.serialize(entry)| <= MAX_RECORD_SIZE && sequence < WORD
    requires GoodFiles(env, w.files, w.maxSize) && w.maxSize < SEGMENT_SPAN
    requires Ready(w, RECORD_HEADER_SIZE + |env.serialize(entry)|)
    ensures var r := NewRecord(env.crc, EntryTypeOf(entry), sequence, env.serialize(entry));
            && WellFormed(env.crc, r) && Encode(r).Ok?
            && var w' := PutBytes(w, Encode(r).value, synced);
               && w' == w.(files := w'.files) && w'.files != [] && GoodFiles(env, w'.files, w.maxSize)
               && LogOf(env, w'.files)
               == LogOf(env, w.files) + [LogRecord(sequence, Pack(Last(w).id, |Last(w).data|), entry)]
  {
    hide Encode, Clean, FileItems, FileLog, Pack, LogOf;
    var r := NewRecord(env.crc, EntryTypeOf(entry), sequence, env.serialize(entry));
    var f := Last(w);
    EncodedSize(r);
    var f' := SegFile(f.id, f.data + Encode(r).value, synced);
    FileLogAppend(env, f, sequence, entry);
    FileLogIgnoresSync(env, f.(data := f'.data), f');
    GrownFileIsGood(env, f, f', w.maxSize, r);
    GoodWithLast(env, w.files, f', w.maxSize);
    LogOfWithLast(env, w, f');
    LogOfLast(env, w);
  }

  lemma WriteKeepsOrder(env: Env, w: WalState, w': WalState, rec: LogRecord)
    requires WalInv(env, w) && w' == w.(files := w'.files) && w'.files != [] && GoodFiles(env, w'.files, w.maxSize)
    requires LogOf(env, w'.files) == LogOf(env, w.files) + [rec]
    requires rec.offset == Pack(Last(w).id, |Last(w).data|)
    requires 1 <= rec.sequence < w.nextSequence && SequencesBelow(LogOf(env, w.files), rec.sequence)
    ensures WalInv(env, w')
  {
    var log, f := LogOf(env, w.files), Last(w);
    LogOffsets(env, w.files, w.maxSize);
    assert GoodFile(env, f, w.maxSize);
    PackPlain(f.id, |f.data|);
    hide GoodFile, LogOf, Pack;
    OrderExtends(log, rec);
  }

  lemma LogOfLast(env: Env, w: WalState)
    requires w.files != []
    ensures LogOf(env, w.files) == LogOf(env, w.files[..|w.files| - 1]) + FileLog(env, Last(w))
  {
  }

  lemma GrownFileIsGood(env: Env, f: SegFile, f': SegFile, maxSize: nat, r: WalRecord)
    requires GoodFile(env, f, maxSize) && maxSize < SEGMENT_SPAN && |r.payload| <= MAX_RECORD_SIZE
    requires f'.id == f.id && |f'.data| == |f.data| + DiskSize(r) && Clean(env, f'.data)
    requires FileItems(env, f'.data) == FileItems(env, f.data) + [At(|f.data|, r)]
    requires |f.data| + DiskSize(r) <= maxSize || f.data == []
    ensures GoodFile(env, f', maxSize)
  {
    hide Clean, FileItems;
    EmptyIsClean(env);
  }

  lemma FileLogIgnoresSync(env: Env, f: SegFile, f': SegFile)
    requires f.id == f'.id && f.data == f'.data
    ensures FileLog(env, f) == FileLog(env, f')
  {
  }

  lemma EncodedSize(r: WalRecord)
    requires |r.payload| <= MAX_RECORD_SIZE
    ensures Encode(r).Ok? && |Encode(r).value| == DiskSize(r)
  {
  }

  lemma OrderExtends(log: Log, rec: LogRecord)
    requires InLogOrder(log) && SequencesBelow(log, rec.sequence)
    requires forall i :: 0 <= i < |log| ==> log[i].offset < rec.offset
    ensures InLogOrder(log + [rec])
  {
  }

  /** The records that an append adds to the log. */
  function Gained(result: Result<(nat, nat), WalError>, entry: WalEntry): Log {
    match result
    case Ok((sequence, offset)) => [LogRecord(sequence, offset, entry)]
    case Err(_) => []
  }

  /**
   Where a record of this size goes: behind the others in the newest segment if it fits there, and else to the start of
   a new segment, the next in number. No other file changes.
   */
  ghost predicate PlacedIn(w: WalState, a: Appended, size: nat)
    requires w.files != [] && a.wal.files != []
  {
    var last, now, fits := Last(w), Last(a.wal), |Last(w).data| + size <= w.maxSize;
    && |a.wal.files| == |w.files| + (if fits then 0 else 1)
    && (forall i :: 0 <= i < |a.wal.files| - 1 ==> a.wal.files[i] == w.files[i])
    && now.id == (if fits then last.id else last.id + 1)
    && |now.data| == (if fits then |last.data| else 0) + (if a.result.Ok? then size else 0)
    && (a.result.Ok? ==> a.result.value.1 == if fits then Pack(last.id, |last.data|) else Pack(last.id + 1, 0))
  }

  lemma AppendPlaces(env: Env, w: WalState, entry: WalEntry)
    requires w.files != []
    ensures PlacedIn(w, Append(env, w, entry), RECORD_HEADER_SIZE + |env.serialize(entry)|)
  {
    hide Append, Encode, Pack, NewRecord, Durable;
    AppendSplits(env, w, entry);
    RecordPayload(env, w, entry);
    if |env.serialize(entry)| <= MAX_RECORD_SIZE {
      EncodedSize(RecordFor(env, w, entry));
    }
  }

  /** The first byte behind the magic number tells what kind of entry a record holds. */
  function KindByte(entry: WalEntry): Byte {
    match entry
    case PutMachine(_, _, _, _) => 1
    case CreateInstance(_, _, _, _, _, _) => 2
    case ApplyEvent(_, _, _, _, _, _, _, _) => 3
    case DeleteInstance(_, _) => 4
    case SnapshotMark(_, _, _, _) => 5
    case Checkpoint(_) => 6
  }

  /** The bytes that an append writes for an entry, one by one. */
  lemma RecordOnDisk(env: Env, w: WalState, entry: WalEntry)
    requires |env.serialize(entry)| <= MAX_RECORD_SIZE && w.nextSequence < WORD
    ensures var payload, r := env.serialize(entry), Encode(RecordFor(env, w, entry));
            && r.Ok? && var b := r.value;
            && |b| == 24 + |payload| && b[..4] == [0x57, 0x4C, 0x4F, 0x47] && b[4] == KindByte(entry) && b[5] == 0
            && U32At(b, 8) == |payload| && U32At(b, 12) == env.crc(payload) && U64At(b, 16) == w.nextSequence
            && b[24..] == payload
  {
    hide FromBigEndian, BigEndian, Header;
    var record, b := RecordFor(env, w, entry), Encode(RecordFor(env, w, entry)).value;
    HeaderReadsBack(record.header);
    assert b[..24] == Header(record.header)[..24];
    SameHeader(b, Header(record.header));
    RecordFields(b);
  }

  lemma RecordPayload(env: Env, w: WalState, entry: WalEntry)
    ensures RecordFor(env, w, entry).payload == env.serialize(entry)
  {
  }

  /**
   Appending: on success the log grows by exactly that entry, under a new largest sequence number and offset; on a
   payload too large to encode the log does not change. The invariant holds either way.
   */
  lemma AppendGrowsLog(env: Env, w: WalState, entry: WalEntry)
    requires Faithful(env) && WalInv(env, w) && Room(w)
    ensures var a := Append(env, w, entry);
            && WalInv(env, a.wal) && a.wal.maxSize == w.maxSize
            && (a.result.Ok? <==> |env.serialize(entry)| <= MAX_RECORD_SIZE)
            && LogOf(env, a.wal.files) == LogOf(env, w.files) + Gained(a.result, entry)
            && (a.result.Ok? ==> a.result.value.0 == w.nextSequence)
    ensures PlacedIn(w, Append(env, w, entry), RECORD_HEADER_SIZE + |env.serialize(entry)|)
    ensures Durable(w.files) ==> Durable(Append(env, w, entry).wal.files)
  {
    hide WalInv, LogOf, Encode, Pack, RotateFor, Append, NewRecord, Durable;
    InvSequence(env, w);
    BumpSequence(env, w);
    var w0, size := w.(nextSequence := w.nextSequence + 1), RECORD_HEADER_SIZE + |env.serialize(entry)|;
    RotateForReady(env, w0, size);
    var w1 := RotateFor(w0, size);
    AppendSplits(env, w, entry);
    AppendPlaces(env, w, entry);
    RotateForDurable(w0, size);
    if |env.serialize(entry)| <= MAX_RECORD_SIZE {
      var f, bytes := Last(w1), Encode(RecordFor(env, w, entry)).value;
      WriteRecord(env, w1, w.nextSequence, entry, |f.data + bytes|);
    } else {
      assert LogOf(env, w.files) + [] == LogOf(env, w.files);
    }
  }

  /** `append` in its two halves: the segment chosen, and the record put there and synced. */
  lemma AppendSplits(env: Env, w: WalState, entry: WalEntry)
    requires w.files != []
    ensures var record := RecordFor(env, w, entry);
            var w1 := RotateFor(w.(nextSequence := w.nextSequence + 1), RECORD_HEADER_SIZE + |env.serialize(entry)|);
            var f := Last(w1);
            if |env.serialize(entry)| <= MAX_RECORD_SIZE then
              && Encode(record).Ok?
              && var f' := SegFile(f.id, f.data + Encode(record).value, |f.data + Encode(record).value|);
                 && Append(env, w, entry) == Appended(WithLast(w1, f'), Ok((w.nextSequence, Pack(f.id, |f.data|))))
                 && (Durable(w1.files) ==> Durable(WithLast(w1, f').files))
            else
              Append(env, w, entry).wal == w1 && Append(env, w, entry).result.Err?
  {
    hide Pack, Header, RotateFor, SyncLast, Durable;
    var record := RecordFor(env, w, entry);
    var w1 := RotateFor(w.(nextSequence := w.nextSequence + 1), DiskSize(record));
    if |record.payload| <= MAX_RECORD_SIZE {
      SyncAfterWrite(w1, Encode(record).value);
      DurableWithLast(w1, Encode(record).value);
    }
  }

  lemma DurableWithLast(w: WalState, bytes: Buffer)
    requires w.files != []
    ensures var f := Last(w);
            Durable(w.files) ==> Durable(WithLast(w, SegFile(f.id, f.data + bytes, |f.data + bytes|)).files)
  {
  }

  lemma RotateForDurable(w: WalState, size: nat)
    requires w.files != []
    ensures Durable(w.files) ==> Durable(RotateFor(w, size).files)
  {
  }

  lemma InvSequence(env: Env, w: WalState)
    requires WalInv(env, w)
    ensures w.files != [] && 1 <= w.nextSequence
  {
  }

  lemma SyncAfterWrite(w: WalState, bytes: Buffer)
    requires w.files != []
    ensures var f := Last(w);
            var written := WithLast(w, f.(data := f.data + bytes));
            SyncLast(written) == WithLast(w, SegFile(f.id, f.data + bytes, |f.data + bytes|))
  {
    var f := Last(w);
    var written := WithLast(w, f.(data := f.data + bytes));
    assert written.files[..|written.files| - 1] == w.files[..|w.files| - 1];
  }

  // ---------------------------------------------------------------------------------------------------------------
  // Reopen
  // ---------------------------------------------------------------------------------------------------------------

  lemma {:induction false} MaxLogSequenceBounds(log: Log)
    requires InLogOrder(log) && forall i :: 0 <= i < |log| ==> 1 <= log[i].sequence
    ensures SequencesBelow(log, MaxLogSequence(log) + 1)
    ensures MaxLogSequence(log) == if log == [] then 0 else log[|log| - 1].sequence
  {
    if log == [] {
    } else {
      var before := log[..|log| - 1];
      MaxLogSequenceBounds(before);
      assert forall i :: 0 <= i < |before| ==> log[i].sequence < log[|log| - 1].sequence;
    }
  }

  /** Reopening keeps the log and numbers on behind its last record, which no number still in the log reaches. */
  lemma ReopenKeepsLog(env: Env, w: WalState)
    requires WalInv(env, w)
    ensures var w' := Reopen(env, w.files, w.maxSize);
            WalInv(env, w') && w'.files == w.files && w'.maxSize == w.maxSize && w'.nextSequence <= w.nextSequence
  {
    hide LogOf, GoodFiles;
    MaxLogSequenceBounds(LogOf(env, w.files));
  }

  lemma FreshWal(env: Env, maxSize: nat)
    requires maxSize < SEGMENT_SPAN
    ensures WalInv(env, Reopen(env, [], maxSize)) && Durable(Reopen(env, [], maxSize).files)
    ensures LogOf(env, Reopen(env, [], maxSize).files) == []
  {
    hide Clean, FileItems;
    EmptyIsClean(env);
    LogOfSingle(env, SegFile(1, [], 0));
    assert FileLog(env, SegFile(1, [], 0)) == [];
  }

  // ---------------------------------------------------------------------------------------------------------------
  // Crash and repair
  // ---------------------------------------------------------------------------------------------------------------

  /** What a crash may leave of the files: of each, a prefix no shorter than what was synced. */
  ghost predicate Survives(files: seq<SegFile>, contents: seq<Buffer>) {
    && |contents| == |files|
    && forall i :: 0 <= i < |files| ==> contents[i] <= files[i].data && files[i].synced <= |contents[i]|
  }

  /** `repair_wal` over all segments. */
  function RepairFiles(env: Env, files: seq<SegFile>, contents: seq<Buffer>): (repaired: seq<SegFile>)
    requires |contents| == |files|
    ensures |repaired| == |files|
    ensures forall i :: 0 <= i < |files| ==>
              repaired[i] == RepairFile(env, files[i].id, contents[i])
  {
    if files == [] then []
    else
      RepairFiles(env, files[..|files| - 1], contents[..|files| - 1])
      + [RepairFile(env, files[|files| - 1].id, contents[|files| - 1])]
  }

  function RepairFile(env: Env, id: nat, contents: Buffer): SegFile {
    SegFile(id, Repaired(env.crc, contents), |Repaired(env.crc, contents)|)
  }

  /** A file that was synced in full comes back unchanged. */
  lemma RepairSynced(env: Env, f: SegFile, contents: Buffer)
    requires Clean(env, f.data) && f.synced == |f.data| && contents <= f.data && f.synced <= |contents|
    ensures RepairFile(env, f.id, contents) == f
  {
    hide Clean, Repaired;
    assert contents == f.data;
    RepairClean(env, f.data);
  }

  /** With everything synced a crash loses nothing. */
  lemma CrashWhenDurable(env: Env, w: WalState, contents: seq<Buffer>)
    requires WalInv(env, w) && Durable(w.files) && Survives(w.files, contents)
    ensures RepairFiles(env, w.files, contents) == w.files
  {
    hide Clean, LogOf, RepairFile;
    forall i | 0 <= i < |w.files| ensures RepairFile(env, w.files[i].id, contents[i]) == w.files[i] {
      assert GoodFile(env, w.files[i], w.maxSize);
      RepairSynced(env, w.files[i], contents[i]);
    }
  }

  /** The record that a write puts behind the last file, or nothing when it cannot be encoded. */
  lemma WriteSplits(env: Env, w: WalState, entry: WalEntry)
    requires w.files != []
    ensures var record := RecordFor(env, w, entry);
            var w1 := RotateFor(w.(nextSequence := w.nextSequence + 1), RECORD_HEADER_SIZE + |env.serialize(entry)|);
            if |env.serialize(entry)| <= MAX_RECORD_SIZE then
              && Encode(record).Ok? && Write(env, w, entry).result.Ok?
              && Write(env, w, entry).wal == PutBytes(w1, Encode(record).value, Last(w1).synced)
              && Append(env, w, entry).wal
              == PutBytes(w1, Encode(record).value, |Last(w1).data| + |Encode(record).value|)
            else
              && Write(env, w, entry) == Append(env, w, entry) && Append(env, w, entry).wal == w1
  {
    hide Pack, Header, RotateFor, SyncLast;
    var record := RecordFor(env, w, entry);
    var w1 := RotateFor(w.(nextSequence := w.nextSequence + 1), DiskSize(record));
    if |record.payload| <= MAX_RECORD_SIZE {
      SyncAfterWrite(w1, Encode(record).value);
    }
  }

  /**
   A crash between the write and the sync: whatever part of the record reached the disk, repair leaves either the
   files as they were before the record, or the files with the record complete.
   */
  lemma CrashInWrite(env: Env, w: WalState, entry: WalEntry, contents: seq<Buffer>)
    requires Faithful(env) && WalInv(env, w) && Room(w) && Durable(w.files)
    requires Survives(Write(env, w, entry).wal.files, contents)
    ensures var w1 := RotateFor(w.(nextSequence := w.nextSequence + 1), RECORD_HEADER_SIZE + |env.serialize(entry)|);
            var repaired := RepairFiles(env, Write(env, w, entry).wal.files, contents);
            repaired == w1.files || repaired == Append(env, w, entry).wal.files
  {
    hide WalInv, RotateFor, Write, Append, Encode, PutBytes, RepairFiles, Survives, Durable, LogOf, NewRecord;
    InvSequence(env, w);
    BumpSequence(env, w);
    var w0, size := w.(nextSequence := w.nextSequence + 1), RECORD_HEADER_SIZE + |env.serialize(entry)|;
    assert Last(w0).id + 1 < MAX_SEGMENT;
    hide Last;
    RotateForReady(env, w0, size);
    RotateForDurable(w0, size);
    WriteSplits(env, w, entry);
    var w1 := RotateFor(w0, size);
    if |env.serialize(entry)| <= MAX_RECORD_SIZE {
      var record := RecordFor(env, w, entry);
      WriteRecord(env, w1, w.nextSequence, entry, Last(w1).synced);
      CrashBehindLast(env, w1, record, contents);
    } else {
      CrashWhenDurable(env, w1, contents);
    }
  }

  lemma CrashBehindLast(env: Env, w: WalState, record: WalRecord, contents: seq<Buffer>)
    requires WalInv(env, w) && Durable(w.files) && WellFormed(env.crc, record) && Encode(record).Ok?
    requires Survives(PutBytes(w, Encode(record).value, Last(w).synced).files, contents)
    requires WalInv(env, PutBytes(w, Encode(record).value, Last(w).synced))
    ensures var bytes := Encode(record).value;
            var repaired := RepairFiles(env, PutBytes(w, bytes, Last(w).synced).files, contents);
            repaired == w.files || repaired == PutBytes(w, bytes, |Last(w).data| + |bytes|).files
  {
    hide Clean, LogOf, RepairFile, Encode, Header;
    var bytes, n := Encode(record).value, |w.files| - 1;
    var written := PutBytes(w, bytes, Last(w).synced).files;
    forall i | 0 <= i < n ensures RepairFile(env, written[i].id, contents[i]) == w.files[i] {
      assert GoodFile(env, w.files[i], w.maxSize) && written[i] == w.files[i];
      RepairSynced(env, w.files[i], contents[i]);
    }
    assert GoodFile(env, w.files[n], w.maxSize) && GoodFile(env, written[n], w.maxSize);
    LastSurvives(env, w.files[n], record, contents[n]);
  }

  /** The last file after the crash: its synced part, and of the record nothing, a piece, or all of it. */
  lemma LastSurvives(env: Env, f: SegFile, record: WalRecord, contents: Buffer)
    requires Clean(env, f.data) && f.synced == |f.data| && WellFormed(env.crc, record) && Encode(record).Ok?
    requires contents <= f.data + Encode(record).value && |f.data| <= |contents|
    requires Clean(env, f.data + Encode(record).value)
    ensures var bytes := Encode(record).value;
            || RepairFile(env, f.id, contents) == f
            || RepairFile(env, f.id, contents) == SegFile(f.id, f.data + bytes, |f.data| + |bytes|)
  {
    hide Clean, Repaired, Header;
    var bytes, k := Encode(record).value, |contents| - |f.data|;
    assert contents == f.data + bytes[..k];
    if k < |bytes| {
      RepairTorn(env, f.data, record, k);
    } else {
      assert bytes[..k] == bytes;
      RepairClean(env, f.data + bytes);
    }
  }

  // ---------------------------------------------------------------------------------------------------------------
  // Deleting old segments
  // ---------------------------------------------------------------------------------------------------------------

  lemma FileSegments(env: Env, f: SegFile, maxSize: nat)
    requires GoodFile(env, f, maxSize)
    ensures forall i :: 0 <= i < |FileLog(env, f)| ==> SegmentOf(FileLog(env, f)[i].offset) == f.id
  {
    hide Clean, FileLog;
    FileOffsets(env, f);
  }

  /** The records of the log from segment `target` on. */
  function FromSegment(log: Log, target: nat): Log {
    if log == [] then []
    else
      var rest := FromSegment(log[..|log| - 1], target);
      if SegmentOf(log[|log| - 1].offset) < target then rest else rest + [log[|log| - 1]]
  }

  lemma {:induction false} FromSegmentConcat(a: Log, b: Log, target: nat)
    ensures FromSegment(a + b, target) == FromSegment(a, target) + FromSegment(b, target)
    decreases |b|
  {
    if b == [] {
      assert a + b == a;
    } else {
      assert (a + b)[..|a + b| - 1] == a + b[..|b| - 1];
      FromSegmentConcat(a, b[..|b| - 1], target);
    }
  }

  lemma {:induction false} FromSegmentUniform(log: Log, id: nat, target: nat)
    requires forall i :: 0 <= i < |log| ==> SegmentOf(log[i].offset) == id
    ensures FromSegment(log, target) == if id < target then [] else log
  {
    if log == [] {
    } else {
      FromSegmentUniform(log[..|log| - 1], id, target);
    }
  }

  /** Deleting the files below a segment drops exactly the records below it, and the newest file stays. */
  lemma {:induction false} DropBelowKeepsSuffix(env: Env, files: seq<SegFile>, maxSize: nat, target: nat)
    requires files != [] && GoodFiles(env, files, maxSize) && target <= files[|files| - 1].id
    ensures var kept := DropBelow(files, target);
            && kept != [] && GoodFiles(env, kept, maxSize) && kept == files[|files| - |kept|..]
            && kept[|kept| - 1] == files[|files| - 1]
            && LogOf(env, kept) == FromSegment(LogOf(env, files), target)
    decreases |files|
  {
    hide GoodFile, FileLog, LogOf, FromSegment;
    FirstFile(env, files, target, maxSize);
    if files[0].id < target {
      var rest, kept := files[1..], DropBelow(files, target);
      DropBelowKeepsSuffix(env, rest, maxSize, target);
      assert rest[|rest| - |kept|..] == files[|files| - |kept|..];
    } else {
      AllFromSegment(env, files, maxSize, target);
    }
  }

  lemma FirstFile(env: Env, files: seq<SegFile>, target: nat, maxSize: nat)
    requires files != [] && GoodFiles(env, files, maxSize)
    ensures files[0].id < target ==>
              FromSegment(LogOf(env, files), target) == FromSegment(LogOf(env, files[1..]), target)
  {
    hide LogOf, FileLog;
    var f := files[0];
    assert files[..1] == [f];
    LogOfSplit(env, files, 1);
    LogOfSingle(env, f);
    FileSegments(env, f, maxSize);
    FromSegmentConcat(FileLog(env, f), LogOf(env, files[1..]), target);
    FromSegmentUniform(FileLog(env, f), f.id, target);
    if f.id < target {
      assert [] + FromSegment(LogOf(env, files[1..]), target) == FromSegment(LogOf(env, files[1..]), target);
    }
  }

  lemma {:induction false} AllFromSegment(env: Env, files: seq<SegFile>, maxSize: nat, target: nat)
    requires GoodFiles(env, files, maxSize) && (files != [] ==> target <= files[0].id)
    ensures FromSegment(LogOf(env, files), target) == LogOf(env, files)
  {
    hide GoodFile, FileLog, FromSegment;
    if files == [] {
      FromSegmentUniform([], 0, target);
    } else {
      var n := |files| - 1;
      var before := files[..n];
      assert GoodFiles(env, before, maxSize);
      AllFromSegment(env, before, maxSize, target);
      FileSegments(env, files[n], maxSize);
      FromSegmentConcat(LogOf(env, before), FileLog(env, files[n]), target);
      FromSegmentUniform(FileLog(env, files[n]), files[n].id, target);
    }
  }

  ghost predicate SubLog(part: Log, log: Log) {
    |part| <= |log| && part == log[|log| - |part|..]
  }

  /** Deletion keeps the invariant: what is left is a suffix of the log, in order and below the next number. */
  lemma DropKeepsInv(env: Env, w: WalState, target: nat)
    requires WalInv(env, w) && target <= Last(w).id
    ensures var w' := w.(files := DropBelow(w.files, target));
            && WalInv(env, w') && Last(w') == Last(w)
            && LogOf(env, w'.files) == FromSegment(LogOf(env, w.files), target)
            && SubLog(LogOf(env, w'.files), LogOf(env, w.files))
            && (Durable(w.files) ==> Durable(w'.files))
  {
    hide GoodFile, LogOf, DropBelow, FromSegment;
    DropBelowKeepsSuffix(env, w.files, w.maxSize, target);
    var kept := DropBelow(w.files, target);
    LogOfSplit(env, w.files, |w.files| - |kept|);
    var before := LogOf(env, w.files[..|w.files| - |kept|]);
    SuffixInOrder(before, LogOf(env, kept), w.nextSequence);
  }

  lemma SuffixInOrder(a: Log, b: Log, bound: nat)
    requires InLogOrder(a + b) && SequencesBelow(a + b, bound)
    ensures InLogOrder(b) && SequencesBelow(b, bound) && SubLog(b, a + b)
  {
    var log := a + b;
    assert b == log[|a|..];
    forall i, j | 0 <= i < j < |b| ensures b[i].sequence < b[j].sequence && b[i].offset < b[j].offset {
      assert b[i] == log[|a| + i] && b[j] == log[|a| + j];
    }
    forall i | 0 <= i < |b| ensures 1 <= b[i].sequence < bound {
      assert b[i] == log[|a| + i];
    }
  }

  // ---------------------------------------------------------------------------------------------------------------
  // Sizes
  // ---------------------------------------------------------------------------------------------------------------

  function RecordBytes(items: Records): nat {
    if items == [] then 0 else DiskSize(items[0].item) + RecordBytes(items[1..])
  }

  lemma {:induction false} DrainBytes(crc: Crc, buf: Buffer, pos: nat)
    requires Incremental(Decoder(crc)) && End(Drain(Decoder(crc), buf, pos)).Dry?
    ensures |buf| == RecordBytes(Items(Drain(Decoder(crc), buf, pos))) + |End(Drain(Decoder(crc), buf, pos)).rest|
    decreases |buf|
  {
    hide Decode, Drain, Items, End, Incremental;
    var step := Decode(crc, buf);
    if step.Item? {
      DecodeSound(crc, buf);
      DrainNext(Decoder(crc), buf, pos);
      DrainBytes(crc, buf[step.used..], pos + step.used);
      var later := Items(Drain(Decoder(crc), buf[step.used..], pos + step.used));
      assert ([At(pos, step.item)] + later)[1..] == later;
    } else if step.More? {
      DrainDry(Decoder(crc), buf, pos);
    } else {
      DrainFail(Decoder(crc), buf, pos);
    }
  }

  function TotalBytes(files: seq<SegFile>): nat {
    if files == [] then 0 else |files[0].data| + TotalBytes(files[1..])
  }

  function TotalRecordBytes(env: Env, files: seq<SegFile>): nat {
    if files == [] then 0 else RecordBytes(FileItems(env, files[0].data)) + TotalRecordBytes(env, files[1..])
  }

  /** Segments hold nothing but records: their sizes add up to the sizes of the records not yet deleted. */
  lemma {:induction false} SizesAddUp(env: Env, files: seq<SegFile>, maxSize: nat)
    requires GoodFiles(env, files, maxSize)
    ensures TotalBytes(files) == TotalRecordBytes(env, files)
  {
    hide Drain, Items, End, Decode;
    if files == [] {
    } else {
      assert GoodFile(env, files[0], maxSize);
      DecoderIncremental(env.crc);
      DrainBytes(env.crc, files[0].data, 0);
      SizesAddUp(env, files[1..], maxSize);
    }
  }
}
