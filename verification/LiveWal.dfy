/** The write-ahead log as an object over open segment files. */
module LiveWal {
  import opened Common
  import opened Bytes
  import opened Stream
  import opened Record
  import opened Segment
  import opened Recovery
  import opened Entry
  import opened Offset
  import opened Wal
  import opened Paging

  datatype ReadFailure = BadSegment(segment: nat, error: ReadError) | BadPayload(offset: nat)

  ghost function AsFile(s: Segment): SegFile
    reads s
  {
    SegFile(s.id, s.data, s.synced)
  }

  ghost function AsFiles(segments: seq<Segment>): (files: seq<SegFile>)
    reads segments
    ensures |files| == |segments|
  {
    if segments == [] then [] else AsFiles(segments[..|segments| - 1]) + [AsFile(segments[|segments| - 1])]
  }

  lemma AsFilesAppend(segments: seq<Segment>, s: Segment)
    ensures AsFiles(segments + [s]) == AsFiles(segments) + [AsFile(s)]
  {
    assert (segments + [s])[..|segments|] == segments;
  }

  lemma {:induction false} AsFilesAt(segments: seq<Segment>, i: nat)
    requires i < |segments|
    ensures AsFiles(segments)[i] == AsFile(segments[i])
  {
    if i < |segments| - 1 {
      AsFilesAt(segments[..|segments| - 1], i);
    }
  }

  ghost predicate Ascending(segments: seq<Segment>) {
    forall i, j :: 0 <= i < j < |segments| ==> segments[i].id < segments[j].id
  }

  ghost predicate AllOpen(segments: seq<Segment>, maxSize: nat)
    reads segments
  {
    forall i :: 0 <= i < |segments| ==> segments[i].Valid() && segments[i].maxSize == maxSize
  }

  /** Open files in ascending id order, all under one size limit. */
  ghost predicate Opened(segments: seq<Segment>, maxSize: nat)
    reads segments
  {
    Ascending(segments) && AllOpen(segments, maxSize)
  }

  lemma LastIsApart(segments: seq<Segment>)
    requires segments != [] && Ascending(segments)
    ensures segments[|segments| - 1] !in segments[..|segments| - 1]
  {
  }

  lemma AscendingAppend(segments: seq<Segment>, s: Segment)
    requires Ascending(segments) && (segments != [] ==> segments[|segments| - 1].id < s.id)
    ensures Ascending(segments + [s])
  {
    var n := |segments|;
    forall i, j | 0 <= i < j < n + 1 ensures (segments + [s])[i].id < (segments + [s])[j].id {
      assert i == n - 1 || j == n ==> segments[i].id <= segments[n - 1].id;
    }
  }

  // ---------------------------------------------------------------------------------------------------------------
  // Reading loops against the log of a file
  // ---------------------------------------------------------------------------------------------------------------

  ghost predicate Readable(env: Env, files: seq<SegFile>) {
    forall i :: 0 <= i < |files| ==> ReadImage(env.crc, files[i].data).Ok?
  }

  lemma CleanReads(env: Env, data: Buffer)
    requires Clean(env, data)
    ensures ReadImage(env.crc, data) == Ok(FileItems(env, data))
  {
    hide Decode, Drain, Items, End;
    DecoderIncremental(env.crc);
  }

  lemma LogOfStep(env: Env, files: seq<SegFile>, i: nat)
    requires i < |files|
    ensures LogOf(env, files[..i + 1]) == LogOf(env, files[..i]) + FileLog(env, files[i])
  {
    hide FileLog;
    assert files[..i + 1][..i] == files[..i];
  }

  lemma ToLogStep(env: Env, id: nat, items: Records, j: nat)
    requires j < |items|
    ensures ToLog(env, id, items[..j + 1]) == ToLog(env, id, items[..j]) + [LogRecordOf(env, id, items[j])]
  {
    assert items[..j + 1] == items[..j] + [items[j]];
    ToLogAppend(env, id, items[..j], items[j]);
  }

  lemma MaxStep(log: Log, rec: LogRecord)
    ensures MaxLogSequence(log + [rec]) == Max(MaxLogSequence(log), rec.sequence)
  {
    assert (log + [rec])[..|log|] == log;
  }

  lemma ReadIsItems(env: Env, data: Buffer)
    ensures ReadImage(env.crc, data).Ok? ==> ReadImage(env.crc, data) == Ok(FileItems(env, data))
  {
    hide Decode, Drain, Items, End;
    DecoderIncremental(env.crc);
  }

  lemma PageStep(log: Log, rec: LogRecord, from: nat, limit: Option<nat>)
    requires limit != Some(|ReadPage(log, from, limit)|)
    ensures ReadPage(log + [rec], from, limit) ==
            if rec.offset < from then ReadPage(log, from, limit) else ReadPage(log, from, limit) + [rec]
  {
    FromConcat(log, [rec], from);
    assert From([rec], from) == if rec.offset >= from then [rec] else [];
  }

  /** A page that has reached its limit does not change with the rest of the log. */
  lemma PageFull(log: Log, rest: Log, from: nat, limit: nat)
    requires |ReadPage(log, from, Some(limit))| == limit
    ensures ReadPage(log + rest, from, Some(limit)) == ReadPage(log, from, Some(limit))
  {
    FromConcat(log, rest, from);
  }

  /** The files below the segment of an offset hold no record at or behind it. */
  lemma SkippedFiles(env: Env, files: seq<SegFile>, maxSize: nat, i: nat, from: nat)
    requires GoodFiles(env, files, maxSize) && i < |files| && files[i].id < SegmentOf(from)
    ensures From(FileLog(env, files[i]), from) == []
  {
    FileOffsets(env, files[i]);
    FromNothing(FileLog(env, files[i]), from);
  }

  /** What putting a record at the end of the last file makes of the state. */
  function Stored(w: WalState, record: WalRecord): (w': WalState)
    requires w.files != []
    ensures w'.files != []
  {
    var f := Last(w);
    match Encode(record)
    case Err(_) => w
    case Ok(bytes) => WithLast(w, SegFile(f.id, f.data + bytes, |f.data + bytes|))
  }

  function StoredAt(w: WalState, record: WalRecord): Result<nat, WalError>
    requires w.files != []
  {
    match Encode(record)
    case Err(e) => Err(e)
    case Ok(_) => Ok(|Last(w).data|)
  }

  lemma AppendIsStore(env: Env, w: WalState, entry: WalEntry)
    requires w.files != []
    ensures var record := RecordFor(env, w, entry);
            var w1 := RotateFor(w.(nextSequence := w.nextSequence + 1), DiskSize(record));
            var at := StoredAt(w1, record);
            Append(env, w, entry) == Appended(Stored(w1, record),
              if at.Err? then Err(at.error) else Ok((w.nextSequence, Pack(Last(w1).id, at.value))))
  {
    hide RotateFor, Pack, NewRecord;
  }

  ghost predicate Entries(env: Env, items: Records) {
    forall i :: 0 <= i < |items| ==> env.deserialize(items[i].item.payload).Some?
  }

  /** What one segment adds to the results: up to the limit, or to a payload that is no entry. */
  function Pick(env: Env, id: nat, records: Records, from: nat, limit: Option<nat>, found: Log): Result<Log, ReadFailure> {
    if records == [] then Ok(found)
    else
      var offset := Pack(id, records[0].pos);
      if offset < from then Pick(env, id, records[1..], from, limit, found)
      else match env.deserialize(records[0].item.payload)
        case None => Err(BadPayload(offset))
        case Some(entry) =>
          var more := found + [LogRecord(records[0].item.header.sequence, offset, entry)];
          if limit == Some(|more|) then Ok(more) else Pick(env, id, records[1..], from, limit, more)
  }

  /** What reading files of any contents returns: it stops at the limit, at bytes that are no record, or at the end. */
  function ReadFiles(env: Env, files: seq<SegFile>, from: nat, limit: Option<nat>, found: Log): Result<Log, ReadFailure> {
    if files == [] then Ok(found)
    else
      var f := files[0];
      if f.id < SegmentOf(from) then ReadFiles(env, files[1..], from, limit, found)
      else if limit == Some(|found|) then Ok(found)
      else match ReadImage(env.crc, f.data)
        case Err(e) => Err(BadSegment(f.id, e))
        case Ok(records) =>
          match Pick(env, f.id, records, from, limit, found)
          case Err(e) => Err(e)
          case Ok(more) => ReadFiles(env, files[1..], from, limit, more)
  }

  /** How many of the records a read from an offset asks for. */
  function Wanted(id: nat, records: Records, from: nat): nat {
    if records == [] then 0
    else (if Pack(id, records[0].pos) < from then 0 else 1) + Wanted(id, records[1..], from)
  }

  /** The limit leaves room behind `n` results. */
  predicate WithinLimit(limit: Option<nat>, n: nat) { limit.Some? ==> n < limit.value }

  /** A record that the read asks for, that it comes to before the limit, and that is no entry. */
  ghost predicate BadRecord(env: Env, id: nat, records: Records, from: nat, limit: Option<nat>, n: nat, k: nat) {
    && k < |records| && Pack(id, records[k].pos) >= from && env.deserialize(records[k].item.payload).None?
    && WithinLimit(limit, n + Wanted(id, records[..k], from))
  }

  ghost predicate SomeBad(env: Env, id: nat, records: Records, from: nat, limit: Option<nat>, n: nat) {
    exists k: nat :: BadRecord(env, id, records, from, limit, n, k)
  }

  lemma BadRecordLater(env: Env, id: nat, records: Records, from: nat, limit: Option<nat>, n: nat, k: nat)
    requires records != []
    ensures var n' := n + if Pack(id, records[0].pos) < from then 0 else 1;
            BadRecord(env, id, records, from, limit, n, k + 1) <==> BadRecord(env, id, records[1..], from, limit, n', k)
  {
    hide Pack;
    if k < |records| - 1 {
      assert records[..k + 1][0] == records[0] && records[..k + 1][1..] == records[1..][..k];
    }
  }

  /** Picking fails exactly on a bad record, and otherwise finds all that is wanted, up to the limit. */
  lemma {:induction false} PickFails(env: Env, id: nat, records: Records, from: nat, limit: Option<nat>, found: Log)
    requires WithinLimit(limit, |found|)
    ensures var r := Pick(env, id, records, from, limit, found);
            && (r.Err? <==> SomeBad(env, id, records, from, limit, |found|))
            && (r.Ok? ==>
                  var n := |found| + Wanted(id, records, from);
                  |r.value| == if WithinLimit(limit, n) then n else limit.value)
    decreases |records|
  {
    hide Pack;
    var n := |found|;
    if records == [] {
    } else {
      var offset, rest := Pack(id, records[0].pos), records[1..];
      var n' := n + if offset < from then 0 else 1;
      forall k: nat
        ensures BadRecord(env, id, records, from, limit, n, k + 1) <==> BadRecord(env, id, rest, from, limit, n', k)
      {
        BadRecordLater(env, id, records, from, limit, n, k);
      }
      assert records[..0] == [];
      var entry := env.deserialize(records[0].item.payload);
      if offset < from {
        PickFails(env, id, rest, from, limit, found);
        SameBad(env, id, records, from, limit, n, n');
      } else if entry.None? {
        assert BadRecord(env, id, records, from, limit, n, 0);
      } else if limit == Some(n + 1) {
        NoneBad(env, id, records, from, limit, n);
      } else {
        var rec := LogRecord(records[0].item.header.sequence, offset, entry.value);
        PickFails(env, id, rest, from, limit, found + [rec]);
        SameBad(env, id, records, from, limit, n, n');
      }
    }
  }

  /** With a first record that does not fail, the bad ones are further on. */
  lemma SameBad(env: Env, id: nat, records: Records, from: nat, limit: Option<nat>, n: nat, n': nat)
    requires records != [] && !BadRecord(env, id, records, from, limit, n, 0)
    requires forall k: nat ::
               BadRecord(env, id, records, from, limit, n, k + 1)
               <==> BadRecord(env, id, records[1..], from, limit, n', k)
    ensures SomeBad(env, id, records, from, limit, n) <==> SomeBad(env, id, records[1..], from, limit, n')
  {
    hide BadRecord;
    if SomeBad(env, id, records, from, limit, n) {
      var k: nat :| BadRecord(env, id, records, from, limit, n, k);
      assert k > 0 && BadRecord(env, id, records, from, limit, n, (k - 1) + 1);
      assert BadRecord(env, id, records[1..], from, limit, n', k - 1);
    }
    if SomeBad(env, id, records[1..], from, limit, n') {
      var k: nat :| BadRecord(env, id, records[1..], from, limit, n', k);
      assert BadRecord(env, id, records, from, limit, n, k + 1);
    }
  }

  /** Nothing is bad behind the record that fills the limit. */
  lemma NoneBad(env: Env, id: nat, records: Records, from: nat, limit: Option<nat>, n: nat)
    requires limit == Some(n + 1) && records != [] && Pack(id, records[0].pos) >= from
    requires env.deserialize(records[0].item.payload).Some?
    ensures !SomeBad(env, id, records, from, limit, n)
  {
    hide Pack;
    forall k: nat ensures !BadRecord(env, id, records, from, limit, n, k) {
      if 0 < k < |records| {
        assert records[..k][0] == records[0];
      }
    }
  }

  /** How many records of the files, as far as they can be read, a read from an offset asks for. */
  function WantedIn(env: Env, files: seq<SegFile>, from: nat): nat {
    if files == [] then 0
    else
      var f := files[0];
      (if f.id < SegmentOf(from) then 0
       else match ReadImage(env.crc, f.data)
            case Err(_) => 0
            case Ok(records) => Wanted(f.id, records, from))
      + WantedIn(env, files[1..], from)
  }

  /** File `i` is damaged where a read comes to, with `n` results before it: no record there, or no entry. */
  ghost predicate Damaged(env: Env, files: seq<SegFile>, from: nat, limit: Option<nat>, n: nat, i: nat) {
    && i < |files| && files[i].id >= SegmentOf(from)
    && var before := n + WantedIn(env, files[..i], from);
       && WithinLimit(limit, before)
       && match ReadImage(env.crc, files[i].data)
          case Err(_) => true
          case Ok(records) => SomeBad(env, files[i].id, records, from, limit, before)
  }

  ghost predicate SomeDamaged(env: Env, files: seq<SegFile>, from: nat, limit: Option<nat>, n: nat) {
    exists i: nat :: Damaged(env, files, from, limit, n, i)
  }

  lemma DamagedLater(env: Env, files: seq<SegFile>, from: nat, limit: Option<nat>, n: nat, n': nat)
    requires files != [] && !Damaged(env, files, from, limit, n, 0)
    requires n + WantedIn(env, files[..1], from) == n'
          || (limit.Some? && n' >= limit.value && n + WantedIn(env, files[..1], from) >= limit.value)
    ensures SomeDamaged(env, files, from, limit, n) <==> SomeDamaged(env, files[1..], from, limit, n')
  {
    hide SomeBad, ReadImage, Wanted;
    forall i: nat ensures Damaged(env, files, from, limit, n, i + 1) <==> Damaged(env, files[1..], from, limit, n', i) {
      if i < |files| - 1 {
        WantedInFirst(env, files, from, i);
      }
    }
    hide Damaged;
    if SomeDamaged(env, files, from, limit, n) {
      var i: nat :| Damaged(env, files, from, limit, n, i);
      assert i > 0 && Damaged(env, files, from, limit, n, (i - 1) + 1);
      assert Damaged(env, files[1..], from, limit, n', i - 1);
    }
    if SomeDamaged(env, files[1..], from, limit, n') {
      var i: nat :| Damaged(env, files[1..], from, limit, n', i);
      assert Damaged(env, files, from, limit, n, i + 1);
    }
  }

  lemma WantedInFirst(env: Env, files: seq<SegFile>, from: nat, i: nat)
    requires i < |files|
    ensures WantedIn(env, files[..i + 1], from)
         == WantedIn(env, files[..1], from) + WantedIn(env, files[1..][..i], from)
  {
    hide ReadImage, Wanted;
    var one, more := files[..1], files[..i + 1];
    assert |one| == 1 && one[1..] == [];
    assert more[0] == one[0] && more[1..] == files[1..][..i];
  }

  /** Reading fails if and only if some file is damaged where it comes to. */
  lemma {:induction false} FailsOnDamage(env: Env, files: seq<SegFile>, from: nat, limit: Option<nat>, found: Log)
    requires limit.Some? ==> |found| <= limit.value
    ensures ReadFiles(env, files, from, limit, found).Err? <==> SomeDamaged(env, files, from, limit, |found|)
    decreases |files|
  {
    hide ReadImage, Pick, SomeBad, Wanted, SomeDamaged;
    if files == [] {
      NoFileDamaged(env, from, limit, |found|);
    } else {
      var f, n := files[0], |found|;
      assert files[..0] == [] && files[..1] == [f] && [f][1..] == [];
      if f.id < SegmentOf(from) {
        DamagedLater(env, files, from, limit, n, n);
        FailsOnDamage(env, files[1..], from, limit, found);
      } else if limit == Some(n) {
        FullIsUndamaged(env, files, from, limit, n);
      } else {
        match ReadImage(env.crc, f.data)
        case Err(_) => FirstDamaged(env, files, from, limit, n);
        case Ok(records) =>
          PickFails(env, f.id, records, from, limit, found);
          if Pick(env, f.id, records, from, limit, found).Err? {
            FirstDamaged(env, files, from, limit, n);
          } else {
            var more := Pick(env, f.id, records, from, limit, found).value;
            DamagedLater(env, files, from, limit, n, |more|);
            FailsOnDamage(env, files[1..], from, limit, more);
          }
      }
    }
  }

  lemma NoFileDamaged(env: Env, from: nat, limit: Option<nat>, n: nat)
    ensures !SomeDamaged(env, [], from, limit, n)
  {
  }

  lemma FirstDamaged(env: Env, files: seq<SegFile>, from: nat, limit: Option<nat>, n: nat)
    requires Damaged(env, files, from, limit, n, 0)
    ensures SomeDamaged(env, files, from, limit, n)
  {
  }

  lemma FullIsUndamaged(env: Env, files: seq<SegFile>, from: nat, limit: Option<nat>, n: nat)
    requires limit == Some(n)
    ensures !SomeDamaged(env, files, from, limit, n)
  {
  }

  /** The inner loop of `read_from`: adds the records of one segment to the results, as far as the limit allows. */
  method PickRecords(env: Env, id: nat, records: Records, from: nat, limit: Option<nat>, found: Log, ghost before: Log)
    returns (r: Result<Log, ReadFailure>)
    requires limit != Some(|found|)
    ensures found == ReadPage(before, from, limit) && Entries(env, records) ==>
              r == Ok(ReadPage(before + ToLog(env, id, records), from, limit))
    ensures r == Pick(env, id, records, from, limit, found)
  {
    hide ReadPage, ToLog, Pack;
    ghost var good := found == ReadPage(before, from, limit);
    var results := found;
    var j := 0;
    assert before + ToLog(env, id, records[..0]) == before;
    while j < |records|
      invariant j <= |records| && limit != Some(|results|)
      invariant good ==> results == ReadPage(before + ToLog(env, id, records[..j]), from, limit)
      invariant Pick(env, id, records[j..], from, limit, results) == Pick(env, id, records, from, limit, found)
    {
      assert records[j..][0] == records[j] && records[j..][1..] == records[j + 1..];
      if good {
        PickStep(env, id, records, j, before, from, limit);
      }
      var offset := Pack(id, records[j].pos);
      if offset >= from {
        match env.deserialize(records[j].item.payload)
        case None => return Err(BadPayload(offset));
        case Some(entry) =>
          results := results + [LogRecord(records[j].item.header.sequence, offset, entry)];
          if limit == Some(|results|) {
            ToLogSplit(env, id, records, j + 1);
            ghost var log := before + ToLog(env, id, records[..j + 1]);
            assert log + ToLog(env, id, records[j + 1..]) == before + ToLog(env, id, records);
            if good {
              PageFull(log, ToLog(env, id, records[j + 1..]), from, limit.value);
            }
            return Ok(results);
          }
      }
      j := j + 1;
    }
    assert records[..j] == records;
    return Ok(results);
  }

  lemma PickStep(env: Env, id: nat, records: Records, j: nat, before: Log, from: nat, limit: Option<nat>)
    requires j < |records|
    requires limit != Some(|ReadPage(before + ToLog(env, id, records[..j]), from, limit)|)
    ensures ReadPage(before + ToLog(env, id, records[..j + 1]), from, limit)
         == ReadPage(before + ToLog(env, id, records[..j]), from, limit)
            + if Pack(id, records[j].pos) < from then [] else [LogRecordOf(env, id, records[j])]
  {
    hide ReadPage, ToLog, Pack;
    var log, rec := before + ToLog(env, id, records[..j]), LogRecordOf(env, id, records[j]);
    ToLogStep(env, id, records, j);
    PageStep(log, rec, from, limit);
    assert log + [rec] == before + ToLog(env, id, records[..j + 1]);
    assert ReadPage(log, from, limit) + [] == ReadPage(log, from, limit);
  }

  lemma ToLogSplit(env: Env, id: nat, items: Records, j: nat)
    requires j <= |items|
    ensures ToLog(env, id, items) == ToLog(env, id, items[..j]) + ToLog(env, id, items[j..])
  {
    hide ToLog, LogRecordOf;
  }

  lemma NoLog(env: Env, files: seq<SegFile>)
    ensures MaxLogSequence(LogOf(env, files[..0])) == 0
  {
  }

  lemma EmptyPage(env: Env, files: seq<SegFile>, from: nat, limit: Option<nat>)
    ensures ReadPage(LogOf(env, files[..0]), from, limit) == []
  {
  }

  /** What the next file adds to a page: nothing below the segment of the offset, and else its records. */
  lemma NextFile(env: Env, w: WalState, i: nat, from: nat, limit: Option<nat>)
    requires WalInv(env, w) && i < |w.files|
    ensures var f := w.files[i];
            && ReadImage(env.crc, f.data) == Ok(FileItems(env, f.data)) && Entries(env, FileItems(env, f.data))
            && LogOf(env, w.files[..i + 1]) == LogOf(env, w.files[..i]) + ToLog(env, f.id, FileItems(env, f.data))
            && (f.id < SegmentOf(from) ==>
                  ReadPage(LogOf(env, w.files[..i + 1]), from, limit) == ReadPage(LogOf(env, w.files[..i]), from, limit))
  {
    hide LogOf, From, ReadImage, FileItems;
    CleanReads(env, w.files[i].data);
    LogOfStep(env, w.files, i);
    if w.files[i].id < SegmentOf(from) {
      SkippedFiles(env, w.files, w.maxSize, i, from);
      FromConcat(LogOf(env, w.files[..i]), FileLog(env, w.files[i]), from);
      assert From(LogOf(env, w.files[..i]), from) + [] == From(LogOf(env, w.files[..i]), from);
    }
  }

  /** Paging through a log with any limit of at least one visits every record from an offset on, once and in order. */
  lemma WalPaging(env: Env, w: WalState, from: nat, limit: nat)
    requires WalInv(env, w) && limit >= 1
    ensures Increasing(LogOf(env, w.files)) && AllPages(LogOf(env, w.files), from, limit) == From(LogOf(env, w.files), from)
  {
    hide LogOf;
    PagingIsComplete(LogOf(env, w.files), from, limit);
  }

  class WriteAheadLog {
    const env: Env
    const maxSize: nat
    var segments: seq<Segment>
    var nextSequence: nat

    ghost predicate Valid()
      reads this, segments
    {
      segments != [] && Opened(segments, maxSize)
    }

    ghost function State(): WalState
      reads this, segments
    {
      WalState(AsFiles(segments), nextSequence, maxSize)
    }

    constructor (env: Env, maxSize: nat, segments: seq<Segment>, nextSequence: nat)
      requires segments != [] && Opened(segments, maxSize)
      ensures Valid() && this.env == env && this.segments == segments
      ensures State() == WalState(AsFiles(segments), nextSequence, maxSize)
    {
      this.env, this.maxSize, this.segments, this.nextSequence := env, maxSize, segments, nextSequence;
    }

    /** `rotate_segment`. */
    method Rotate()
      requires Valid()
      modifies this
      ensures Valid() && State() == Wal.Rotate(old(State()))
      ensures fresh(segments[|segments| - 1]) && segments[..|segments| - 1] == old(segments)
    {
      hide AsFiles, Ascending;
      var last := segments[|segments| - 1];
      var segment := new Segment.Create(last.id + 1, maxSize);
      AscendingAppend(segments, segment);
      AsFilesAppend(segments, segment);
      AsFilesAt(segments, |segments| - 1);
      segments := segments + [segment];
    }

    /** Writes behind the last record of the last segment and syncs it. */
    method Put(record: WalRecord) returns (r: Result<nat, WalError>)
      requires Valid()
      modifies segments[|segments| - 1]
      ensures Valid()
      ensures State() == Stored(old(State()), record) && r == StoredAt(old(State()), record)
    {
      hide AsFiles, Encode, Ascending;
      var last, before := segments[|segments| - 1], segments[..|segments| - 1];
      assert segments == before + [last];
      LastIsApart(segments);
      AsFilesAppend(before, last);
      var written := last.Append(record);
      if written.Ok? {
        last.Sync();
      }
      AsFilesAppend(before, last);
      return written;
    }

    /** Rotates when a record does not fit behind the others. */
    method MakeRoom(recordSize: nat)
      requires Valid()
      modifies this
      ensures Valid() && State() == RotateFor(old(State()), recordSize)
      ensures segments == old(segments)
           || (fresh(segments[|segments| - 1]) && segments[..|segments| - 1] == old(segments))
    {
      hide AsFiles, Ascending;
      var last := segments[|segments| - 1];
      AsFilesAt(segments, |segments| - 1);
      if !last.CanFit(recordSize) {
        Rotate();
      }
    }

    /** `append`, with a sync after every write. */
    method Append(entry: WalEntry) returns (r: Result<(nat, nat), WalError>)
      requires Valid()
      modifies this, segments
      ensures Valid() && Appended(State(), r) == Wal.Append(env, old(State()), entry)
      ensures PlacedIn(old(State()), Appended(State(), r), RECORD_HEADER_SIZE + |env.serialize(entry)|)
      ensures segments == old(segments)
           || (fresh(segments[|segments| - 1]) && segments[..|segments| - 1] == old(segments))
    {
      hide AsFiles, Opened, NewRecord, Pack, RotateFor, Wal.Append, Stored, StoredAt, PlacedIn;
      AppendIsStore(env, State(), entry);
      AppendPlaces(env, State(), entry);
      var sequence := nextSequence;
      nextSequence := nextSequence + 1;
      var record := NewRecord(env.crc, EntryTypeOf(entry), sequence, env.serialize(entry));
      MakeRoom(DiskSize(record));
      AsFilesAt(segments, |segments| - 1);
      var written := Put(record);
      match written
      case Err(e) => return Err(e);
      case Ok(offset) => return Ok((sequence, Pack(segments[|segments| - 1].id, offset)));
    }

    /** `read_from`: the first records from an offset on, up to a limit. */
    method ReadFrom(from: nat, limit: Option<nat>) returns (r: Result<Log, ReadFailure>)
      requires Valid()
      ensures r == ReadFiles(env, State().files, from, limit, [])
      ensures WalInv(env, State()) ==> r == Ok(ReadPage(LogOf(env, State().files), from, limit))
    {
      hide Pick, AsFiles, WalInv, LogOf, ReadPage, ReadImage, FileLog, Ascending;
      ghost var w := State();
      ghost var good := WalInv(env, w);
      var results: Log := [];
      EmptyPage(env, w.files, from, limit);
      var i := 0;
      while i < |segments|
        invariant i <= |segments|
        invariant good ==> results == ReadPage(LogOf(env, w.files[..i]), from, limit)
        invariant ReadFiles(env, w.files[i..], from, limit, results) == ReadFiles(env, w.files, from, limit, [])
      {
        var s := segments[i];
        AsFilesAt(segments, i);
        assert w.files[i..][0] == w.files[i] && w.files[i..][1..] == w.files[i + 1..];
        if good {
          NextFile(env, w, i, from, limit);
        }
        if s.id >= SegmentOf(from) {
          if limit == Some(|results|) {
            if good {
              LogOfSplit(env, w.files, i);
              PageFull(LogOf(env, w.files[..i]), LogOf(env, w.files[i..]), from, limit.value);
            }
            return Ok(results);
          }
          var read := s.ReadAll(env.crc);
          match read
          case Err(e) => return Err(BadSegment(s.id, e));
          case Ok(records) =>
            var picked := PickRecords(env, s.id, records, from, limit, results, LogOf(env, w.files[..i]));
            match picked
            case Err(e) => return Err(e);
            case Ok(more) => results := more;
        }
        i := i + 1;
      }
      assert w.files[..i] == w.files;
      return Ok(results);
    }

    /**
     `compact_before`: deletes the segments below the segment of an offset and counts them. An offset above the newest
     segment would delete all of them, the one being written to included; the object is good if and only if it is not.
     */
    method CompactBefore(before: nat) returns (deleted: nat)
      requires Valid()
      modifies this`segments
      ensures State() == old(State()).(files := DropBelow(old(State()).files, SegmentOf(before)))
      ensures Valid() <==> SegmentOf(before) <= old(segments[|segments| - 1].id)
      ensures deleted == |old(segments)| - |segments| && segments == old(segments)[deleted..]
      ensures forall k :: 0 <= k < deleted ==> old(segments)[k].id < SegmentOf(before)
      ensures forall k :: 0 <= k < |segments| ==> segments[k].id >= SegmentOf(before)
    {
      hide AsFiles, DropBelow, SegmentOf;
      var target := SegmentOf(before);
      ghost var files := AsFiles(segments);
      deleted := 0;
      while segments != [] && segments[0].id < target
        invariant deleted <= |old(segments)| && segments == old(segments)[deleted..]
        invariant Opened(segments, maxSize)
        invariant forall k :: 0 <= k < deleted ==> old(segments)[k].id < target
        invariant DropBelow(files, target) == DropBelow(files[deleted..], target)
        invariant target <= old(segments[|segments| - 1].id) ==> segments != []
        decreases |segments|
      {
        AsFilesAt(old(segments), deleted);
        DropOne(files, deleted, target);
        segments := segments[1..];
        deleted := deleted + 1;
      }
      AsFilesFrom(old(segments), deleted);
      if segments != [] {
        AsFilesAt(old(segments), deleted);
      }
      DropNoMore(files[deleted..], target);
    }
  }

  lemma DropOne(files: seq<SegFile>, k: nat, target: nat)
    requires k < |files| && files[k].id < target
    ensures DropBelow(files[k..], target) == DropBelow(files[k + 1..], target)
  {
    assert files[k..][0] == files[k] && files[k..][1..] == files[k + 1..];
  }

  lemma DropNoMore(files: seq<SegFile>, target: nat)
    requires files != [] ==> files[0].id >= target
    ensures DropBelow(files, target) == files
  {
  }

  lemma AsFilesFrom(segments: seq<Segment>, k: nat)
    requires k <= |segments|
    ensures AsFiles(segments[k..]) == AsFiles(segments)[k..]
  {
    hide AsFiles, AsFile;
    forall i | 0 <= i < |segments| - k ensures AsFiles(segments[k..])[i] == AsFiles(segments)[k..][i] {
      AsFilesAt(segments[k..], i);
      AsFilesAt(segments, k + i);
    }
  }

  /** `open` on the segment files found: fails on an unreadable one, and else numbers on behind the largest sequence. */
  method Open(env: Env, maxSize: nat, found: seq<Segment>) returns (r: Result<WriteAheadLog, ReadFailure>)
    requires Opened(found, maxSize)
    ensures r.Ok? <==> Readable(env, AsFiles(found))
    ensures r.Ok? ==> r.value.Valid() && r.value.env == env && fresh(r.value)
    ensures r.Ok? ==> r.value.State() == Reopen(env, AsFiles(found), maxSize)
    ensures r.Ok? && found != [] ==> r.value.segments == found
  {
    hide AsFiles, LogOf, MaxLogSequence, ReadImage, ToLog;
    if found == [] {
      var first := new Segment.Create(1, maxSize);
      AsFilesAppend([], first);
      assert [] + [first] == [first];
      var wal := new WriteAheadLog(env, maxSize, [first], 1);
      return Ok(wal);
    }
    var max := 0;
    NoLog(env, AsFiles(found));
    for i := 0 to |found|
      invariant Readable(env, AsFiles(found)[..i])
      invariant max == MaxLogSequence(LogOf(env, AsFiles(found)[..i]))
    {
      AsFilesAt(found, i);
      var read := found[i].ReadAll(env.crc);
      match read
      case Err(e) => return Err(BadSegment(found[i].id, e));
      case Ok(records) =>
        ReadIsItems(env, found[i].data);
        max := MaxOver(env, found[i].id, records, max, LogOf(env, AsFiles(found)[..i]));
        LogOfStep(env, AsFiles(found), i);
    }
    assert AsFiles(found)[..|found|] == AsFiles(found);
    var wal := new WriteAheadLog(env, maxSize, found, max + 1);
    return Ok(wal);
  }

  /** The inner loop of `recover`. */
  method MaxOver(env: Env, id: nat, records: Records, start: nat, ghost before: Log) returns (max: nat)
    requires start == MaxLogSequence(before)
    ensures max == MaxLogSequence(before + ToLog(env, id, records))
  {
    hide ToLog, MaxLogSequence;
    max := start;
    assert before + ToLog(env, id, records[..0]) == before;
    for j := 0 to |records|
      invariant max == MaxLogSequence(before + ToLog(env, id, records[..j]))
    {
      max := Max(max, records[j].item.header.sequence);
      ToLogStep(env, id, records, j);
      ghost var log := before + ToLog(env, id, records[..j]);
      MaxStep(log, LogRecordOf(env, id, records[j]));
      assert log + [LogRecordOf(env, id, records[j])] == before + ToLog(env, id, records[..j + 1]);
    }
    assert records[..|records|] == records;
  }
}
