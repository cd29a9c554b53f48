/** Scanning and repairing all the segments of a log directory. */
module WalRepair {
  import opened Common
  import opened Bytes
  import opened Stream
  import opened Record
  import opened Segment
  import opened Recovery
  import opened Entry
  import opened Offset
  import opened Wal
  import opened LiveWal

  datatype Totals = Totals(valid: nat, invalid: nat, truncated: nat, maxSequence: nat,
                           recovered: seq<nat>, failed: seq<nat>)

  function Count(t: Totals, id: nat, scanned: Result<Report, WalError>): Totals {
    match scanned
    case Err(_) => t.(failed := t.failed + [id])
    case Ok(r) =>
      Totals(t.valid + r.valid, t.invalid + r.invalid, t.truncated + r.truncated, Max(t.maxSequence, r.maxSequence),
             if r.invalid > 0 || r.truncated > 0 then t.recovered + [id] else t.recovered, t.failed)
  }

  /** The totals over files of these contents. */
  function Tally(crc: Crc, files: seq<SegFile>): Totals {
    if files == [] then Totals(0, 0, 0, 0, [], [])
    else
      var n := |files| - 1;
      Count(Tally(crc, files[..n]), files[n].id, ScanReport(crc, files[n].data))
  }

  /** What a scan leaves of a file's contents. */
  function Left(crc: Crc, data: Buffer, repair: bool): Buffer { if repair then Repaired(crc, data) else data }

  lemma TallyStep(crc: Crc, files: seq<SegFile>, i: nat)
    requires i < |files|
    ensures Tally(crc, files[..i + 1])
         == Count(Tally(crc, files[..i]), files[i].id, ScanReport(crc, files[i].data))
  {
    assert files[..i + 1][..i] == files[..i];
  }

  /** `scan`: every segment is scanned once and, when asked to, repaired; none is skipped after a failure. */
  method Scan(crc: Crc, segments: seq<Segment>, repair: bool) returns (totals: Totals)
    requires Ascending(segments) && forall i :: 0 <= i < |segments| ==> segments[i].Valid()
    modifies segments
    ensures totals == old(Tally(crc, AsFiles(segments)))
    ensures forall i :: 0 <= i < |segments| ==>
              segments[i].Valid() && segments[i].data == Left(crc, old(segments[i].data), repair)
  {
    hide AsFiles, Repaired, ScanReport, Tally, Count, Left;
    ghost var files := AsFiles(segments);
    forall k | 0 <= k < |segments| ensures files[k].data == segments[k].data && files[k].id == segments[k].id {
      AsFilesAt(segments, k);
    }
    totals := Totals(0, 0, 0, 0, [], []);
    NoTally(crc, files);
    var i := 0;
    while i < |segments|
      invariant i <= |segments| && totals == Tally(crc, files[..i])
      invariant forall k :: 0 <= k < |segments| ==>
                  && segments[k].Valid()
                  && segments[k].data == if i <= k then files[k].data else Left(crc, files[k].data, repair)
    {
      TallyStep(crc, files, i);
      var scanned := ScanSegment(crc, segments[i], repair);
      LeftIs(crc, files[i].data, repair);
      totals := Count(totals, segments[i].id, scanned);
      i := i + 1;
    }
    assert files[..i] == files;
  }

  lemma LeftIs(crc: Crc, data: Buffer, repair: bool)
    ensures Left(crc, data, repair) == if repair then Repaired(crc, data) else data
  {
  }

  lemma NoTally(crc: Crc, files: seq<SegFile>)
    ensures Tally(crc, files[..0]) == Totals(0, 0, 0, 0, [], [])
  {
  }

  // ---------------------------------------------------------------------------------------------------------------
  // Repairing a log directory
  // ---------------------------------------------------------------------------------------------------------------

  /** The files, each followed by a tail that decoding cannot complete: nothing, a torn record or padding. */
  ghost predicate WithTails(env: Env, files: seq<SegFile>, found: seq<SegFile>) {
    && |found| == |files|
    && forall i :: 0 <= i < |files| ==>
         && found[i].id == files[i].id && files[i].data <= found[i].data
         && Decode(env.crc, found[i].data[|files[i].data|..]).More?
  }

  function TailBytes(files: seq<SegFile>, found: seq<SegFile>): int
    requires |found| == |files|
  {
    if files == [] then 0
    else
      var n := |files| - 1;
      TailBytes(files[..n], found[..n]) + |found[n].data| - |files[n].data|
  }

  lemma TailReport(env: Env, data: Buffer, tail: Buffer)
    requires Clean(env, data) && Decode(env.crc, tail).More?
    ensures ScanReport(env.crc, data + tail)
         == Ok(Report(|FileItems(env, data)|, 0, |tail|, MaxSequence(FileItems(env, data), 0)))
    ensures Repaired(env.crc, data + tail) == data
  {
    hide Decode, Drain, Items, End, ScanReport, Repaired;
    BehindClean(env, data, tail);
    DrainDry(Decoder(env.crc), tail, |data|);
    assert FileItems(env, data) + [] == FileItems(env, data);
    RepairCutsTail(env.crc, data, tail);
  }

  lemma {:induction false} MaxLogSequenceIs(log: Log, m: nat)
    requires forall i :: 0 <= i < |log| ==> log[i].sequence <= m
    requires m == 0 || exists i :: 0 <= i < |log| && log[i].sequence == m
    ensures MaxLogSequence(log) == m
  {
    if log == [] {
    } else {
      var n := |log| - 1;
      var before := log[..n];
      if log[n].sequence == m {
        MaxLogSequenceUnder(before, m);
      } else {
        assert m > 0 ==> exists i :: 0 <= i < n && before[i].sequence == m;
        MaxLogSequenceIs(before, m);
      }
    }
  }

  lemma {:induction false} MaxLogSequenceUnder(log: Log, m: nat)
    requires forall i :: 0 <= i < |log| ==> log[i].sequence <= m
    ensures MaxLogSequence(log) <= m
  {
    if log == [] {
    } else {
      MaxLogSequenceUnder(log[..|log| - 1], m);
    }
  }

  lemma {:induction false} MaxLogSequenceConcat(a: Log, b: Log)
    ensures MaxLogSequence(a + b) == Max(MaxLogSequence(a), MaxLogSequence(b))
    decreases |b|
  {
    if b == [] {
      assert a + b == a;
    } else {
      var n := |b| - 1;
      MaxLogSequenceConcat(a, b[..n]);
      assert a + b == (a + b[..n]) + [b[n]];
      MaxStep(a + b[..n], b[n]);
    }
  }

  lemma FileMax(env: Env, f: SegFile)
    ensures MaxLogSequence(FileLog(env, f)) == MaxSequence(FileItems(env, f.data), 0)
  {
    hide FileItems, MaxLogSequence;
    var items, log := FileItems(env, f.data), FileLog(env, f);
    var m := MaxSequence(items, 0);
    if m > 0 {
      var i :| 0 <= i < |items| && items[i].item.header.sequence == m;
      assert log[i].sequence == m;
    }
    MaxLogSequenceIs(log, m);
  }

  /**
   Whatever incomplete tails stand behind the files, the scan counts every record of the log, cuts exactly the
   tails, reports the true maximum sequence and fails nowhere.
   */
  lemma {:induction false} ScanCountsLog(env: Env, files: seq<SegFile>, found: seq<SegFile>)
    requires WithTails(env, files, found) && forall i :: 0 <= i < |files| ==> Clean(env, files[i].data)
    ensures var t := Tally(env.crc, found);
            && t.valid == |LogOf(env, files)| && t.invalid == 0 && t.truncated == TailBytes(files, found)
            && t.maxSequence == MaxLogSequence(LogOf(env, files)) && t.failed == []
  {
    hide Clean, Decode, ScanReport, FileItems, MaxLogSequence, MaxSequence;
    if files == [] {
      FileMaxOfNothing();
    } else {
      var n := |files| - 1;
      ScanCountsLog(env, files[..n], found[..n]);
      var data, tail := files[n].data, found[n].data[|files[n].data|..];
      assert found[n].data == data + tail;
      TailReport(env, data, tail);
      FileMax(env, files[n]);
      MaxLogSequenceConcat(LogOf(env, files[..n]), FileLog(env, files[n]));
    }
  }

  /** The scan of the file gives up. */
  ghost predicate GivesUp(crc: Crc, f: SegFile) { MeetsOversized(crc, Start(f.data)) }

  /** The scan of the file meets bytes that are no record, or a repair of it cuts something off. */
  ghost predicate Mended(crc: Crc, f: SegFile) {
    var r := ScanReport(crc, f.data);
    r.Ok? && (Repaired(crc, f.data) != f.data || r.value.invalid > 0)
  }

  /** On any files: exactly those whose scan gives up are listed as failed, and exactly the mended ones as recovered. */
  lemma {:induction false} TallyNames(crc: Crc, files: seq<SegFile>, id: nat)
    ensures id in Tally(crc, files).failed <==>
              exists i :: 0 <= i < |files| && files[i].id == id && GivesUp(crc, files[i])
    ensures id in Tally(crc, files).recovered <==>
              exists i :: 0 <= i < |files| && files[i].id == id && Mended(crc, files[i])
  {
    hide GivesUp, Mended, ScanReport;
    if files == [] {
    } else {
      var n := |files| - 1;
      TallyNames(crc, files[..n], id);
      FileNamed(crc, files[n]);
      assert forall i :: 0 <= i < n ==> files[..n][i] == files[i];
    }
  }

  lemma FileNamed(crc: Crc, f: SegFile)
    ensures ScanReport(crc, f.data).Err? <==> GivesUp(crc, f)
    ensures var r := ScanReport(crc, f.data);
            Mended(crc, f) <==> r.Ok? && (r.value.invalid > 0 || r.value.truncated > 0)
  {
    hide RunScan, MeetsOversized;
    AbortsOnLength(crc, Start(f.data));
    ScanTotal(crc, f.data);
    if ScanReport(crc, f.data).Ok? {
      var end := RunScan(crc, Start(f.data)).value;
      assert f.data[..end.lastValid] == f.data <==> end.lastValid == |f.data|;
    }
  }

  lemma FileMaxOfNothing()
    ensures MaxLogSequence([]) == 0
  {
  }

  /** Repairing such files gives back exactly the files; repairing again changes nothing. */
  lemma RepairRestores(env: Env, files: seq<SegFile>, found: seq<SegFile>, i: nat)
    requires WithTails(env, files, found) && i < |files| && Clean(env, files[i].data)
    ensures Repaired(env.crc, found[i].data) == files[i].data
    ensures Repaired(env.crc, files[i].data) == files[i].data
  {
    hide Clean, Decode, Repaired;
    var data, tail := files[i].data, found[i].data[|files[i].data|..];
    assert found[i].data == data + tail;
    TailReport(env, data, tail);
    RepairClean(env, data);
  }
}
