/** Scanning segments for torn or corrupted records, and cutting them off. */
module Recovery {
  import opened Common
  import opened Bytes
  import opened Stream
  import opened Record
  import opened Segment

  /** The scan loop's variables: the unread buffer, the tracked offset, and the counters. */
  datatype Scan = Scan(buf: Buffer, offset: nat, lastValid: nat, valid: nat, invalid: nat, maxSequence: nat)

  datatype Outcome = Continue(next: Scan) | Stop | Abort(error: WalError)

  function Start(data: Buffer): Scan { Scan(data, 0, 0, 0, 0, 0) }

  /** Drops one byte, when there is one, and moves the tracked offset by one. */
  function SkipByte(s: Scan): Scan {
    if s.buf == [] then s else s.(buf := s.buf[1..], offset := s.offset + 1)
  }

  /** One iteration of the scan loop. A record with a bad CRC is consumed whole, but `offset` moves by at most one. */
  function ScanStep(crc: Crc, s: Scan): (o: Outcome)
    ensures o.Continue? ==> |o.next.buf| < |s.buf|
  {
    if |s.buf| < RECORD_HEADER_SIZE then Stop
    else match Decode(crc, s.buf)
      case Item(r, n) =>
        DecodeSound(crc, s.buf);
        var offset := s.offset + n;
        Continue(Scan(s.buf[n..], offset, offset, s.valid + 1, s.invalid, Max(s.maxSequence, r.header.sequence)))
      case More => Stop
      case Fail(CorruptedRecord(_, _), n) =>
        Continue(SkipByte(s.(buf := s.buf[n..], invalid := s.invalid + 1)))
      case Fail(InvalidHeader, _) =>
        if AllZero(s.buf) then Stop else Continue(SkipByte(s.(invalid := s.invalid + 1)))
      case Fail(e, _) => Abort(e)
  }

  function RunScan(crc: Crc, s: Scan): Result<Scan, WalError>
    decreases |s.buf|
  {
    match ScanStep(crc, s)
    case Continue(next) => RunScan(crc, next)
    case Stop => Ok(s)
    case Abort(e) => Err(e)
  }

  /** The next iteration meets a record whose CRC does not match. */
  predicate Mismatch(crc: Crc, s: Scan) {
    |s.buf| >= RECORD_HEADER_SIZE && Decode(crc, s.buf).Fail? && Decode(crc, s.buf).error.CorruptedRecord?
  }

  /** How many CRC mismatches a scan meets. */
  function Mismatches(crc: Crc, s: Scan): nat
    decreases |s.buf|
  {
    match ScanStep(crc, s)
    case Continue(next) => (if Mismatch(crc, s) then 1 else 0) + Mismatches(crc, next)
    case _ => 0
  }

  /** One iteration's bookkeeping: bytes consumed against offset moved. */
  lemma ScanStepLag(crc: Crc, s: Scan)
    requires ScanStep(crc, s).Continue?
    ensures var next := ScanStep(crc, s).next;
            var consumed := |s.buf| - |next.buf|;
            && s.offset <= next.offset && next.valid + next.invalid == s.valid + s.invalid + 1
            && (next.lastValid == s.lastValid || next.lastValid == next.offset)
            && (if Mismatch(crc, s) then next.offset - s.offset + RECORD_HEADER_SIZE <= consumed
                else next.offset - s.offset == consumed)
  {
    if Decode(crc, s.buf).Item? {
      DecodeSound(crc, s.buf);
    }
  }

  /**
   On arbitrary bytes the scan ends, the tracked offset never passes the bytes consumed, so the truncation length
   never underflows; and offset and bytes consumed agree exactly when no CRC mismatch was met.
   */
  lemma {:induction false} ScanBounds(crc: Crc, s: Scan, size: nat)
    requires s.lastValid <= s.offset && s.offset + |s.buf| <= size
    ensures RunScan(crc, s).Ok? ==> ScanBounded(crc, s, RunScan(crc, s).value, size)
    decreases |s.buf|
  {
    hide Decode;
    if ScanStep(crc, s).Continue? {
      ScanStepLag(crc, s);
      ScanBounds(crc, ScanStep(crc, s).next, size);
    }
  }

  ghost predicate ScanBounded(crc: Crc, s: Scan, end: Scan, size: nat) {
    var lag := (size - |end.buf| - end.offset) - (size - |s.buf| - s.offset);
    && end.lastValid <= end.offset <= size - |end.buf|
    && RECORD_HEADER_SIZE * Mismatches(crc, s) <= lag
    && (Mismatches(crc, s) == 0 <==> lag == 0)
  }

  /** The bounds, from the start of a file. */
  lemma ScanTotal(crc: Crc, data: Buffer)
    ensures match RunScan(crc, Start(data))
            case Err(e) => true
            case Ok(end) =>
              && end.lastValid <= end.offset <= |data| - |end.buf|
              && (end.offset == |data| - |end.buf| <==> Mismatches(crc, Start(data)) == 0)
  {
    ScanBounds(crc, Start(data), |data|);
  }

  /** The largest sequence among the records, starting from `from`. */
  function MaxSequence(items: Records, from: nat): (m: nat)
    ensures m >= from && (forall i :: 0 <= i < |items| ==> items[i].item.header.sequence <= m)
    ensures m == from || exists i :: 0 <= i < |items| && items[i].item.header.sequence == m
  {
    if items == [] then from
    else
      var m := MaxSequence(items[1..], Max(from, items[0].item.header.sequence));
      assert forall i :: 0 < i < |items| ==> items[i] == items[1..][i - 1];
      m
  }

  /** The scan over one whole record. */
  lemma ScanRecord(crc: Crc, r: WalRecord, after: Buffer, s: Scan)
    requires WellFormed(crc, r) && s.buf == Encode(r).value + after
    ensures ScanStep(crc, s) == Continue(Scan(after, s.offset + DiskSize(r), s.offset + DiskSize(r), s.valid + 1,
                                              s.invalid, Max(s.maxSequence, r.header.sequence)))
  {
    hide Decode, Header;
    DecodeEncoded(crc, r, after);
    assert s.buf[DiskSize(r)..] == after;
  }

  lemma ScanStops(crc: Crc, s: Scan)
    requires Decode(crc, s.buf).More?
    ensures ScanStep(crc, s).Stop?
  {
  }

  /** Where reading runs dry the scan stops too, having counted exactly the records that reading returns. */
  lemma {:induction false} ScanFollowsReading(crc: Crc, s: Scan)
    requires Incremental(Decoder(crc)) && End(Drain(Decoder(crc), s.buf, s.offset)).Dry? && s.lastValid == s.offset
    ensures var trace := Drain(Decoder(crc), s.buf, s.offset);
            var rest := End(trace).rest;
            && |rest| <= |s.buf|
            && var end := s.offset + |s.buf| - |rest|;
               RunScan(crc, s)
               == Ok(Scan(rest, end, end, s.valid + |Items(trace)|, s.invalid,
                          MaxSequence(Items(trace), s.maxSequence)))
    decreases |s.buf|
  {
    hide Decode, Drain, Items, End, ScanStep, Incremental;
    var step := Decode(crc, s.buf);
    if step.More? {
      DrainDry(Decoder(crc), s.buf, s.offset);
      ScanStops(crc, s);
    } else if step.Item? {
      DrainNext(Decoder(crc), s.buf, s.offset);
      ScanCounts(crc, s);
      var next := ScanStep(crc, s).next;
      ScanFollowsReading(crc, next);
      var later := Items(Drain(Decoder(crc), next.buf, next.offset));
      assert ([At(s.offset, step.item)] + later)[1..] == later;
    } else {
      DrainFail(Decoder(crc), s.buf, s.offset);
    }
  }

  lemma ScanCounts(crc: Crc, s: Scan)
    requires Decode(crc, s.buf).Item?
    ensures var step := Decode(crc, s.buf);
            && 0 < step.used <= |s.buf|
            && ScanStep(crc, s)
            == Continue(Scan(s.buf[step.used..], s.offset + step.used, s.offset + step.used, s.valid + 1, s.invalid,
                             Max(s.maxSequence, step.item.header.sequence)))
  {
    DecodeSound(crc, s.buf);
  }

  /** A file of whole records and an incomplete tail is cut exactly in front of the tail. */
  lemma RepairCutsTail(crc: Crc, data: Buffer, tail: Buffer)
    requires Incremental(Decoder(crc)) && End(Drain(Decoder(crc), data + tail, 0)) == Dry(tail)
    ensures var items := Items(Drain(Decoder(crc), data + tail, 0));
            ScanReport(crc, data + tail) == Ok(Report(|items|, 0, |tail|, MaxSequence(items, 0)))
    ensures Repaired(crc, data + tail) == data
  {
    hide Decode, Drain, Items, End, Incremental, RunScan;
    ScanFollowsReading(crc, Start(data + tail));
    assert (data + tail)[..|data|] == data;
  }

  /**
   Torn-tail repair: the scan counts every record, cuts exactly the tail and reports the true maximum sequence;
   scanning the repaired file finds the same records and cuts nothing.
   */
  lemma TornTailRepair(crc: Crc, rs: seq<WalRecord>, tail: Buffer)
    requires AllWellFormed(crc, rs) && Torn(crc, tail)
    ensures ScanReport(crc, Image(rs) + tail) == Ok(Report(|rs|, 0, |tail|, MaxSequence(Placed(rs, 0), 0)))
    ensures Repaired(crc, Image(rs) + tail) == Image(rs)
    ensures ScanReport(crc, Image(rs)) == Ok(Report(|rs|, 0, 0, MaxSequence(Placed(rs, 0), 0)))
    ensures Repaired(crc, Image(rs)) == Image(rs)
  {
    hide Decode, Drain, Items, End, Incremental, RunScan, ScanReport, Repaired;
    DecoderIncremental(crc);
    TornAsksForMore(crc, tail);
    DrainImage(crc, rs, tail, 0);
    RepairCutsTail(crc, Image(rs), tail);
    ShortAsksForMore(crc, []);
    DrainImage(crc, rs, [], 0);
    assert Image(rs) + [] == Image(rs);
    RepairCutsTail(crc, Image(rs), []);
  }

  /** Scanning on finds a valid record. */
  predicate FindsMore(crc: Crc, s: Scan) {
    RunScan(crc, s).Ok? && RunScan(crc, s).value.valid > s.valid
  }

  /** The scan meets a record with a bad CRC and, further on, a valid one. */
  predicate Misplaced(crc: Crc, s: Scan)
    decreases |s.buf|
  {
    match ScanStep(crc, s)
    case Continue(next) => (Mismatch(crc, s) && FindsMore(crc, next)) || Misplaced(crc, next)
    case _ => false
  }

  /** What a scan finds from a state: nothing more, or a last valid record further on. */
  ghost predicate Found(s: Scan, end: Scan) {
    if end.valid == s.valid then end.lastValid == s.lastValid && end.maxSequence == s.maxSequence
    else end.valid > s.valid && s.offset + RECORD_HEADER_SIZE <= end.lastValid <= s.offset + |s.buf|
  }

  lemma {:induction false} ScanFinds(crc: Crc, s: Scan)
    requires RunScan(crc, s).Ok?
    ensures Found(s, RunScan(crc, s).value)
    decreases |s.buf|
  {
    hide Decode;
    if ScanStep(crc, s).Continue? {
      ScanStepLag(crc, s);
      if Mismatch(crc, s) {
        MismatchStep(crc, s);
      } else {
        ScanStepFinds(crc, s);
      }
      ScanFinds(crc, ScanStep(crc, s).next);
    }
  }

  lemma MismatchStep(crc: Crc, s: Scan)
    requires Mismatch(crc, s) && ScanStep(crc, s).Continue?
    ensures var next := ScanStep(crc, s).next;
            next.valid == s.valid && next.lastValid == s.lastValid && next.maxSequence == s.maxSequence
  {
  }

  lemma ScanStepFinds(crc: Crc, s: Scan)
    requires ScanStep(crc, s).Continue? && !Mismatch(crc, s)
    ensures var next := ScanStep(crc, s).next;
            if next.valid == s.valid then
              next.lastValid == s.lastValid && next.maxSequence == s.maxSequence && next.offset == s.offset + 1
              && next.buf == s.buf[1..]
            else
              next.valid == s.valid + 1 && next.lastValid == next.offset >= s.offset + RECORD_HEADER_SIZE
  {
    if Decode(crc, s.buf).Item? {
      DecodeSound(crc, s.buf);
    }
  }

  /** How much of the buffer a repair keeps when the scan ends in `end`. */
  function Kept(s: Scan, end: Scan): int {
    if end.valid == s.valid then 0 else end.lastValid - s.offset
  }

  /** Scanning only the part that a repair keeps finds the same records and reaches its end. */
  lemma {:induction false} ScanKept(crc: Crc, s: Scan)
    requires RunScan(crc, s).Ok? && !Misplaced(crc, s) && s.lastValid <= s.offset
    ensures Found(s, RunScan(crc, s).value)
    ensures var end := RunScan(crc, s).value;
            var again := RunScan(crc, s.(buf := s.buf[..Kept(s, end)]));
            && again.Ok? && again.value.valid == end.valid && again.value.lastValid == end.lastValid
            && again.value.maxSequence == end.maxSequence
    decreases |s.buf|
  {
    hide Decode, ScanStep;
    ScanFinds(crc, s);
    var end := RunScan(crc, s).value;
    var kept := Kept(s, end);
    var s' := s.(buf := s.buf[..kept]);
    if end.valid == s.valid {
      NothingFound(crc, s');
    } else {
      assert ScanStep(crc, s).Continue?;
      var next := ScanStep(crc, s).next;
      NoMismatchHere(crc, s);
      ScanStepLag(crc, s);
      ScanStepFinds(crc, s);
      ScanKept(crc, next);
      var next' := next.(buf := next.buf[..Kept(next, end)]);
      if RunScan(crc, next').value.valid > next'.valid {
        SomethingFound(crc, next');
      }
      ScanStepKept(crc, s, kept, next');
    }
  }

  /** Fewer bytes than a header, or only zeros, hold no record. */
  lemma NothingFound(crc: Crc, s: Scan)
    requires |s.buf| < RECORD_HEADER_SIZE || AllZero(s.buf)
    ensures RunScan(crc, s) == Ok(s)
  {
    DecodeZerosOrShort(crc, s.buf);
  }

  lemma DecodeZerosOrShort(crc: Crc, buf: Buffer)
    requires |buf| < RECORD_HEADER_SIZE || AllZero(buf)
    ensures Decode(crc, buf).More?
  {
    if AllZero(buf) {
      DecodeZeros(crc, buf);
    }
  }

  lemma SomethingFound(crc: Crc, s: Scan)
    requires RunScan(crc, s).Ok? && RunScan(crc, s).value.valid > s.valid
    ensures |s.buf| >= RECORD_HEADER_SIZE && !AllZero(s.buf)
  {
    if |s.buf| < RECORD_HEADER_SIZE || AllZero(s.buf) {
      NothingFound(crc, s);
    }
  }

  /** Cutting the buffer at or behind what the step looked at does not change the step. */
  lemma ScanStepKept(crc: Crc, s: Scan, kept: int, next': Scan)
    requires RECORD_HEADER_SIZE <= kept <= |s.buf|
    requires ScanStep(crc, s).Continue? && !Mismatch(crc, s)
    requires var next := ScanStep(crc, s).next;
             && |s.buf| - |next.buf| <= kept
             && next' == next.(buf := next.buf[..kept - (|s.buf| - |next.buf|)])
             && (next.valid == s.valid ==> !AllZero(next'.buf))
    ensures ScanStep(crc, s.(buf := s.buf[..kept])) == Continue(next')
  {
    hide Decode;
    DecodePrefix(crc, s.buf, kept);
    var step := Decode(crc, s.buf);
    HeaderFailKeeps(crc, s.buf);
    if step.Item? {
      DecodeSound(crc, s.buf);
      assert s.buf[..kept][step.used..] == s.buf[step.used..][..kept - step.used];
    } else {
      assert s.buf[..kept][1..] == s.buf[1..][..kept - 1];
      assert next'.buf == s.buf[..kept][1..];
      assert AllZero(s.buf[..kept]) ==> AllZero(next'.buf);
    }
  }

  lemma HeaderFailKeeps(crc: Crc, buf: Buffer)
    ensures Decode(crc, buf).Fail? && Decode(crc, buf).error.InvalidHeader? ==> Decode(crc, buf).used == 0
  {
  }

  lemma NoMismatchHere(crc: Crc, s: Scan)
    requires FindsMore(crc, s) && !Misplaced(crc, s) && ScanStep(crc, s).Continue?
    ensures !Mismatch(crc, s)
  {
    hide Decode;
    if Mismatch(crc, s) {
      MismatchStep(crc, s);
    }
  }

  // ---------------------------------------------------------------------------------------------------------------
  // A bad record in front of a valid one
  // ---------------------------------------------------------------------------------------------------------------

  /** How many bytes the scan really consumes up to the end of the last valid record. */
  function Reach(crc: Crc, s: Scan): nat
    decreases |s.buf|
  {
    if !FindsMore(crc, s) || !ScanStep(crc, s).Continue? then 0
    else |s.buf| - |ScanStep(crc, s).next.buf| + Reach(crc, ScanStep(crc, s).next)
  }

  lemma {:induction false} MisplacedFinds(crc: Crc, s: Scan)
    requires RunScan(crc, s).Ok? && Misplaced(crc, s)
    ensures FindsMore(crc, s)
    decreases |s.buf|
  {
    hide Decode, ScanStep;
    var next := ScanStep(crc, s).next;
    if Misplaced(crc, next) {
      MisplacedFinds(crc, next);
    }
    ValidGrows(crc, s);
  }

  lemma ValidGrows(crc: Crc, s: Scan)
    requires ScanStep(crc, s).Continue?
    ensures s.valid <= ScanStep(crc, s).next.valid
  {
    hide Decode;
  }

  /** The tracked offset of the last valid record falls short of its true end if a bad record stands in front of it. */
  lemma {:induction false} ReachLag(crc: Crc, s: Scan)
    requires FindsMore(crc, s)
    ensures var short := RunScan(crc, s).value.lastValid - s.offset;
            if Misplaced(crc, s) then short < Reach(crc, s) else short <= Reach(crc, s)
    decreases |s.buf|
  {
    hide Decode, ScanStep;
    assert ScanStep(crc, s).Continue?;
    var next := ScanStep(crc, s).next;
    ScanStepLag(crc, s);
    if FindsMore(crc, next) {
      ReachLag(crc, next);
    } else {
      if Misplaced(crc, next) {
        MisplacedFinds(crc, next);
      }
      ScanFinds(crc, next);
      LastFound(crc, s);
    }
  }

  /** When the next record is the last valid one, its end is what is remembered. */
  lemma LastFound(crc: Crc, s: Scan)
    requires ScanStep(crc, s).Continue? && ScanStep(crc, s).next.valid > s.valid
    ensures var next := ScanStep(crc, s).next; next.lastValid == next.offset
  {
    hide Decode;
  }

  /** One step on a buffer that was cut: the same step, as long as it looks at bytes that are left. */
  lemma CutStep(crc: Crc, s: Scan, k: nat)
    requires k <= |s.buf| && !ScanStep(crc, s).Abort?
    ensures var cut := ScanStep(crc, s.(buf := s.buf[..k]));
            match cut
            case Abort(_) => false
            case Stop => true
            case Continue(next') =>
              && ScanStep(crc, s).Continue?
              && var next := ScanStep(crc, s).next;
                 || (next'.buf == [] && next'.valid == s.valid)
                 || (|s.buf| - |next.buf| <= k && next' == next.(buf := next.buf[..k - (|s.buf| - |next.buf|)]))
  {
    hide Decode;
    var prefix := s.buf[..k];
    assert s.buf == prefix + s.buf[k..];
    DecodeStable(crc, prefix, s.buf[k..]);
    var step := Decode(crc, prefix);
    if |prefix| >= RECORD_HEADER_SIZE && !step.More? {
      HeaderFailKeeps(crc, prefix);
      assert AllZero(s.buf) ==> AllZero(prefix);
      if step.Item? {
        DecodeSound(crc, prefix);
        assert prefix[step.used..] == s.buf[step.used..][..k - step.used];
      } else if step.error.CorruptedRecord? {
        FailWithin(crc, prefix);
        assert prefix[step.used..] == s.buf[step.used..][..k - step.used];
      } else {
        assert prefix[1..] == s.buf[1..][..k - 1];
      }
    }
  }

  /** Scanning less finds no more, and what ends before the last valid record finds less. */
  lemma {:induction false} CutScan(crc: Crc, s: Scan, k: nat)
    requires RunScan(crc, s).Ok? && k <= |s.buf|
    ensures var again := RunScan(crc, s.(buf := s.buf[..k]));
            && again.Ok? && again.value.valid <= RunScan(crc, s).value.valid
            && (k < Reach(crc, s) ==> again.value.valid < RunScan(crc, s).value.valid)
    decreases |s.buf|
  {
    hide Decode, ScanStep;
    var cut := s.(buf := s.buf[..k]);
    CutStep(crc, s, k);
    ScanFinds(crc, s);
    if ScanStep(crc, cut).Continue? {
      var next, next' := ScanStep(crc, s).next, ScanStep(crc, cut).next;
      if next'.buf == [] && next'.valid == s.valid {
        NothingFound(crc, next');
      } else {
        CutScan(crc, next, k - (|s.buf| - |next.buf|));
      }
    }
  }

  /** Repair is final: a second scan finds the same records and the same maximum sequence, and cuts nothing. */
  ghost predicate FinalRepair(crc: Crc, data: Buffer) {
    var first, second := ScanReport(crc, data), ScanReport(crc, Repaired(crc, data));
    && first.Ok? && second.Ok? && second.value.valid == first.value.valid && second.value.truncated == 0
    && second.value.maxSequence == first.value.maxSequence
    && Repaired(crc, Repaired(crc, data)) == Repaired(crc, data)
  }

  /** The scan meets a header that announces an oversized record. */
  predicate MeetsOversized(crc: Crc, s: Scan)
    decreases |s.buf|
  {
    match ScanStep(crc, s)
    case Continue(next) => MeetsOversized(crc, next)
    case _ =>
      && |s.buf| >= RECORD_HEADER_SIZE && s.buf[..4] == WAL_MAGIC && TypeOfCode(s.buf[4]).Some?
      && PayloadLen(s.buf) > MAX_RECORD_SIZE
  }

  lemma {:induction false} AbortsOnLength(crc: Crc, s: Scan)
    ensures RunScan(crc, s).Err? <==> MeetsOversized(crc, s)
    ensures RunScan(crc, s).Err? ==> RunScan(crc, s).error.RecordTooLarge?
    decreases |s.buf|
  {
    if ScanStep(crc, s).Continue? {
      hide Decode, ScanStep;
      AbortsOnLength(crc, ScanStep(crc, s).next);
    }
  }

  /**
   On arbitrary bytes, repair is final if and only if the scan meets no oversized length, which makes it give up and
   leave the file as it is, and no record with a bad CRC in front of a valid one, which makes the second scan find
   fewer records than the first counted.
   */
  lemma RepairIsFinal(crc: Crc, data: Buffer)
    ensures FinalRepair(crc, data) <==> !MeetsOversized(crc, Start(data)) && !Misplaced(crc, Start(data))
    ensures if MeetsOversized(crc, Start(data)) then
              && ScanReport(crc, data).Err? && ScanReport(crc, data).error.RecordTooLarge?
              && Repaired(crc, data) == data
            else
              ScanReport(crc, data).Ok? &&
              (Misplaced(crc, Start(data)) ==>
                 var second := ScanReport(crc, Repaired(crc, data));
                 second.Ok? && second.value.valid < ScanReport(crc, data).value.valid)
  {
    hide Decode, ScanStep, Misplaced, Reach, MeetsOversized;
    AbortsOnLength(crc, Start(data));
    if RunScan(crc, Start(data)).Ok? {
      ScanTotal(crc, data);
      var end := RunScan(crc, Start(data)).value;
      assert Start(data).(buf := data[..end.lastValid]) == Start(Repaired(crc, data));
      if Misplaced(crc, Start(data)) {
        MisplacedFinds(crc, Start(data));
        ReachLag(crc, Start(data));
        CutScan(crc, Start(data), end.lastValid);
      } else {
        ScanKept(crc, Start(data));
        assert Kept(Start(data), end) == end.lastValid;
      }
    }
  }

  /** A header-only record whose stored CRC is wrong. */
  ghost predicate BadCrc(crc: Crc, h: RecordHeader) {
    h.payloadLen == 0 && h.crc < 0x1_0000_0000 && h.crc != crc([]) && h.sequence < 0x1_0000_0000_0000_0000
  }

  /**
   With a CRC mismatch the repair is not safe: the tracked offset lags by the corrupted record, so a valid record
   counted behind it is itself cut short by that many bytes.
   */
  lemma MismatchCutsValidRecord(crc: Crc, h: RecordHeader, skipped: Byte, r: WalRecord)
    requires BadCrc(crc, h) && WellFormed(crc, r)
    ensures var data := Header(h) + [skipped] + Encode(r).value;
            && ScanReport(crc, data) == Ok(Report(1, 1, RECORD_HEADER_SIZE, r.header.sequence))
            && Repaired(crc, data) == data[..|data| - RECORD_HEADER_SIZE]
  {
    var behind := [skipped] + Encode(r).value;
    var data := Header(h) + [skipped] + Encode(r).value;
    assert data == Header(h) + behind;
    BadCrcFails(crc, h, behind);
    hide Decode, Header;
    var s1 := Scan(Encode(r).value, 1, 0, 0, 1, 0);
    assert data[RECORD_HEADER_SIZE..] == behind && behind[1..] == Encode(r).value;
    assert ScanStep(crc, Start(data)) == Continue(s1);
    assert Encode(r).value + [] == Encode(r).value;
    ScanRecord(crc, r, [], s1);
    var s2 := ScanStep(crc, s1).next;
    NothingFound(crc, s2);
    assert RunScan(crc, s1) == Ok(s2);
  }

  lemma BadCrcFails(crc: Crc, h: RecordHeader, behind: Buffer)
    requires BadCrc(crc, h)
    ensures var step := Decode(crc, Header(h) + behind);
            step.Fail? && step.error.CorruptedRecord? && step.used == RECORD_HEADER_SIZE
  {
    var buf := Header(h) + behind;
    HeaderReadsBack(h);
    assert buf[..24] == Header(h)[..24];
    SameHeader(buf, Header(h));
    assert buf[24..24] == [];
  }

  datatype Report = Report(valid: nat, invalid: nat, truncated: nat, maxSequence: nat)

  /** What scanning a file of these contents returns. */
  function ScanReport(crc: Crc, data: Buffer): Result<Report, WalError> {
    ScanTotal(crc, data);
    match RunScan(crc, Start(data))
    case Err(e) => Err(e)
    case Ok(end) => Ok(Report(end.valid, end.invalid, |data| - end.lastValid, end.maxSequence))
  }

  /** The contents a repair leaves behind. */
  function Repaired(crc: Crc, data: Buffer): Buffer {
    ScanTotal(crc, data);
    match RunScan(crc, Start(data))
    case Err(e) => data
    case Ok(end) => data[..end.lastValid]
  }

  lemma ScanOn(crc: Crc, s: Scan)
    ensures match ScanStep(crc, s)
            case Continue(next) => RunScan(crc, s) == RunScan(crc, next)
            case Stop => RunScan(crc, s) == Ok(s)
            case Abort(e) => RunScan(crc, s) == Err(e)
  {
    hide ScanStep;
  }

  /** The next `n` bytes are such that neither a header nor padding begins at any of them. */
  predicate Junk(buf: Buffer, n: nat)
    decreases n
  {
    n == 0 ||
    (&& |buf| >= 24 && buf[..4] != [0x57, 0x4C, 0x4F, 0x47] && buf[..4] != [0, 0, 0, 0]
     && Junk(buf[1..], n - 1))
  }

  lemma JunkStep(crc: Crc, s: Scan)
    requires |s.buf| >= 24 && s.buf[..4] != [0x57, 0x4C, 0x4F, 0x47] && s.buf[..4] != [0, 0, 0, 0]
    ensures ScanStep(crc, s) == Continue(s.(buf := s.buf[1..], offset := s.offset + 1, invalid := s.invalid + 1))
  {
    hide Decode;
    RecordAnswers(crc, s.buf);
    assert s.buf[..4] == [s.buf[0], s.buf[1], s.buf[2], s.buf[3]];
  }

  lemma {:induction false} JunkLength(buf: Buffer, n: nat)
    requires Junk(buf, n)
    ensures n <= |buf|
    decreases n
  {
    if n > 0 {
      JunkLength(buf[1..], n - 1);
    }
  }

  /** The scan finds its way: junk is skipped byte by byte, each byte counted as an invalid record, and nothing more. */
  lemma {:induction false} JunkIsSkipped(crc: Crc, s: Scan, n: nat)
    requires Junk(s.buf, n)
    ensures n <= |s.buf|
    ensures RunScan(crc, s) == RunScan(crc, s.(buf := s.buf[n..], offset := s.offset + n, invalid := s.invalid + n))
    decreases n
  {
    hide ScanStep;
    JunkLength(s.buf, n);
    if n == 0 {
      assert s.buf[0..] == s.buf;
    } else {
      JunkStep(crc, s);
      var next := s.(buf := s.buf[1..], offset := s.offset + 1, invalid := s.invalid + 1);
      JunkIsSkipped(crc, next, n - 1);
      assert next.buf[n - 1..] == s.buf[n..];
    }
  }

  /** The loop of `scan_segment` over the contents of a file. */
  method ScanLoop(crc: Crc, data: Buffer) returns (r: Result<Scan, WalError>)
    ensures r == RunScan(crc, Start(data))
  {
    hide Decode, RunScan;
    var valid: nat, invalid: nat, maxSequence: nat, lastValid: nat, offset: nat := 0, 0, 0, 0, 0;
    var buf := data;
    while |buf| >= RECORD_HEADER_SIZE
      invariant RunScan(crc, Scan(buf, offset, lastValid, valid, invalid, maxSequence)) == RunScan(crc, Start(data))
      decreases |buf|
    {
      ScanOn(crc, Scan(buf, offset, lastValid, valid, invalid, maxSequence));
      match Decode(crc, buf)
      case Item(record, used) =>
        DecodeSound(crc, buf);
        valid := valid + 1;
        maxSequence := Max(maxSequence, record.header.sequence);
        offset := offset + DiskSize(record);
        lastValid := offset;
        buf := buf[used..];
      case More =>
        return Ok(Scan(buf, offset, lastValid, valid, invalid, maxSequence));
      case Fail(CorruptedRecord(_, _), used) =>
        FailWithin(crc, buf);
        invalid := invalid + 1;
        buf := buf[used..];
        if buf != [] {
          buf := buf[1..];
          offset := offset + 1;
        }
      case Fail(InvalidHeader, _) =>
        if AllZero(buf) {
          return Ok(Scan(buf, offset, lastValid, valid, invalid, maxSequence));
        }
        invalid := invalid + 1;
        buf := buf[1..];
        offset := offset + 1;
      case Fail(e, _) =>
        return Err(e);
    }
    ScanOn(crc, Scan(buf, offset, lastValid, valid, invalid, maxSequence));
    return Ok(Scan(buf, offset, lastValid, valid, invalid, maxSequence));
  }

  /** Scans one segment and, when asked to repair, truncates it behind the last valid record. */
  method ScanSegment(crc: Crc, segment: Segment, repair: bool) returns (r: Result<Report, WalError>)
    requires segment.Valid()
    modifies segment
    ensures segment.Valid()
    ensures r == ScanReport(crc, old(segment.data))
    ensures segment.data == if repair then Repaired(crc, old(segment.data)) else old(segment.data)
    ensures old(segment.syncPending) == false ==> !segment.syncPending
  {
    hide Decode, RunScan;
    ScanTotal(crc, segment.data);
    var fileSize := segment.size;
    var scanned := ScanLoop(crc, segment.data);
    match scanned
    case Err(e) => return Err(e);
    case Ok(end) =>
      var truncated := fileSize - end.lastValid;
      if repair && truncated > 0 {
        segment.TruncateAt(end.lastValid);
      }
      return Ok(Report(end.valid, end.invalid, truncated, end.maxSequence));
  }

  lemma FailWithin(crc: Crc, buf: Buffer)
    requires Decode(crc, buf).Fail?
    ensures Decode(crc, buf).used <= |buf|
    ensures Decode(crc, buf).error.CorruptedRecord? ==> RECORD_HEADER_SIZE <= Decode(crc, buf).used
  {
  }
}
