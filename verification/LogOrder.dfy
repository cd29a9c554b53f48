/** The write-ahead log over whole lives: appends, restarts and snapshot-driven compactions. */
module LogOrder {
  import opened Common
  import opened Bytes
  import opened Record
  import opened Entry
  import opened Offset
  import opened Wal

  /** The log on disk and, beside it, every record it ever held. */
  datatype Life = Life(wal: WalState, history: Log)

  datatype Step = DoAppend(entry: WalEntry) | Restart | Compact(before: nat)

  function LogIn(env: Env, s: Life): Log { LogOf(env, s.wal.files) }

  /** Compaction is driven by the offset of a record that is still in the log. */
  ghost predicate Enabled(env: Env, s: Life, step: Step)
    requires s.wal.files != []
  {
    match step
    case DoAppend(_) => Room(s.wal)
    case Restart => true
    case Compact(before) => exists k :: 0 <= k < |LogIn(env, s)| && LogIn(env, s)[k].offset == before
  }

  function Next(env: Env, s: Life, step: Step): Life
    requires s.wal.files != []
  {
    match step
    case DoAppend(entry) =>
      var a := Append(env, s.wal, entry);
      Life(a.wal, s.history + Gained(a.result, entry))
    case Restart => s.(wal := Reopen(env, s.wal.files, s.wal.maxSize))
    case Compact(before) => s.(wal := s.wal.(files := DropBelow(s.wal.files, SegmentOf(before))))
  }

  ghost predicate LifeInv(env: Env, s: Life) {
    && WalInv(env, s.wal)
    && InLogOrder(s.history) && SequencesBelow(s.history, s.wal.nextSequence)
    && SubLog(LogIn(env, s), s.history) && (s.history != [] ==> LogIn(env, s) != [])
  }

  /** A record above the last one is above them all. */
  lemma OrderGrows(history: Log, log: Log, gained: Log)
    requires InLogOrder(history) && SubLog(log, history) && (history != [] ==> log != [])
    requires InLogOrder(log + gained) && |gained| <= 1
    ensures InLogOrder(history + gained) && SubLog(log + gained, history + gained)
  {
    if gained == [] {
      assert history + gained == history && log + gained == log;
    } else {
      if history != [] {
        var n := |log| - 1;
        assert log[n] == history[|history| - 1];
        assert (log + gained)[n] == log[n] && (log + gained)[n + 1] == gained[0];
      }
      assert history + gained == history + [gained[0]];
    }
  }

  /** In an ordered history the numbers stay below a bound that the end of it stays below. */
  lemma NumbersFollow(history: Log, log: Log, low: nat, bound: nat)
    requires InLogOrder(history) && SubLog(log, history) && (history != [] ==> log != [])
    requires SequencesBelow(log, bound) && SequencesBelow(history[..|history| - |log|], low)
    ensures SequencesBelow(history, bound)
  {
    if history != [] {
      var n := |history| - 1;
      assert history[n] == log[|log| - 1];
      forall i | 0 <= i <= n ensures 1 <= history[i].sequence < bound {
        var k := |history| - |log|;
        if i < k {
          assert history[i] == history[..k][i] && history[i].sequence < history[n].sequence;
        } else {
          assert history[i] == log[i - k];
        }
      }
    }
  }

  lemma AppendKeeps(env: Env, s: Life, entry: WalEntry)
    requires Faithful(env) && LifeInv(env, s) && Room(s.wal)
    ensures LifeInv(env, Next(env, s, DoAppend(entry)))
  {
    hide LogOf, GoodFiles, Append, PlacedIn, WithinCapacity, Room;
    AppendGrowsLog(env, s.wal, entry);
    var a := Append(env, s.wal, entry);
    var gained := Gained(a.result, entry);
    OrderGrows(s.history, LogIn(env, s), gained);
    var k := |s.history| - |LogIn(env, s)|;
    assert (s.history + gained)[..k] == s.history[..k];
    NumbersFollow(s.history + gained, LogIn(env, s) + gained, s.wal.nextSequence, a.wal.nextSequence);
  }

  lemma RestartKeeps(env: Env, s: Life)
    requires LifeInv(env, s)
    ensures LifeInv(env, Next(env, s, Restart))
  {
    hide LogOf, GoodFiles, Reopen;
    ReopenKeepsLog(env, s.wal);
    NumbersFollow(s.history, LogIn(env, s), s.wal.nextSequence, Reopen(env, s.wal.files, s.wal.maxSize).nextSequence);
  }

  /** Every record of the log lies in a segment up to the newest one. */
  lemma RecordSegment(env: Env, w: WalState, k: nat)
    requires WalInv(env, w) && k < |LogOf(env, w.files)|
    ensures SegmentOf(LogOf(env, w.files)[k].offset) <= Last(w).id
  {
    hide LogOf;
    LogOffsets(env, w.files, w.maxSize);
  }

  lemma SuffixOfSuffix(a: Log, b: Log, c: Log)
    requires SubLog(a, b) && SubLog(b, c)
    ensures SubLog(a, c)
  {
  }

  /** The record that drives a compaction survives it, and with it everything behind it. */
  lemma DriverStays(log: Log, k: nat)
    requires k < |log| && InLogOrder(log)
    ensures FromSegment(log, SegmentOf(log[k].offset)) != []
  {
    hide FromSegment;
    var n, target := |log| - 1, SegmentOf(log[k].offset);
    assert k < n ==> log[k].offset < log[n].offset;
    assert log == log[..n] + [log[n]];
    FromSegmentConcat(log[..n], [log[n]], target);
    FromSegmentUniform([log[n]], SegmentOf(log[n].offset), target);
  }

  lemma CompactKeeps(env: Env, s: Life, before: nat)
    requires LifeInv(env, s) && Enabled(env, s, Compact(before))
    ensures LifeInv(env, Next(env, s, Compact(before))) && Last(Next(env, s, Compact(before)).wal) == Last(s.wal)
  {
    hide LogOf, GoodFiles, DropBelow, FromSegment;
    var log := LogIn(env, s);
    var k :| 0 <= k < |log| && log[k].offset == before;
    RecordSegment(env, s.wal, k);
    DropKeepsInv(env, s.wal, SegmentOf(before));
    DriverStays(log, k);
    SuffixOfSuffix(LogIn(env, Next(env, s, Compact(before))), log, s.history);
  }

  lemma RotateNewest(w: WalState, size: nat)
    requires w.files != []
    ensures Last(w).id <= Last(RotateFor(w, size)).id
  {
  }

  lemma AppendNewest(env: Env, w: WalState, entry: WalEntry)
    requires w.files != []
    ensures Last(w).id <= Last(Append(env, w, entry).wal).id
  {
    AppendSplits(env, w, entry);
    RotateNewest(w.(nextSequence := w.nextSequence + 1), RECORD_HEADER_SIZE + |env.serialize(entry)|);
    hide Append, RotateFor, Encode, Pack, NewRecord;
  }

  lemma NewestSegmentStays(env: Env, s: Life, step: Step)
    requires LifeInv(env, s) && Enabled(env, s, step)
    ensures Next(env, s, step).wal.files != [] && Last(s.wal).id <= Last(Next(env, s, step).wal).id
  {
    hide LogOf, GoodFiles, Append, DropBelow;
    match step
    case DoAppend(entry) => AppendNewest(env, s.wal, entry);
    case Restart =>
    case Compact(before) => CompactKeeps(env, s, before);
  }

  // ---------------------------------------------------------------------------------------------------------------
  // Whole lives
  // ---------------------------------------------------------------------------------------------------------------

  ghost predicate IsLife(env: Env, lives: seq<Life>, steps: seq<Step>, maxSize: nat) {
    && |lives| == |steps| + 1
    && lives[0] == Life(Reopen(env, [], maxSize), [])
    && forall i :: 0 <= i < |steps| ==>
         lives[i].wal.files != [] && Enabled(env, lives[i], steps[i]) && lives[i + 1] == Next(env, lives[i], steps[i])
  }

  /**
   Through any appends, restarts and compactions, offsets and sequence numbers strictly increase along everything
   ever logged, so none is used twice; the log on disk is the end of that history, never losing its last record; and
   each segment is within its size limit or holds one oversized record.
   */
  lemma {:induction false} OrderSurvives(env: Env, lives: seq<Life>, steps: seq<Step>, maxSize: nat, i: nat)
    requires Faithful(env) && maxSize < SEGMENT_SPAN && IsLife(env, lives, steps, maxSize) && i < |lives|
    ensures LifeInv(env, lives[i])
  {
    hide LifeInv, Next, Enabled, LogOf;
    if i == 0 {
      FirstLife(env, maxSize);
    } else {
      OrderSurvives(env, lives, steps, maxSize, i - 1);
      var s := lives[i - 1];
      assert lives[i] == Next(env, s, steps[i - 1]) && Enabled(env, s, steps[i - 1]);
      NextKeeps(env, s, steps[i - 1]);
    }
  }

  lemma NextKeeps(env: Env, s: Life, step: Step)
    requires Faithful(env) && LifeInv(env, s) && Enabled(env, s, step)
    ensures LifeInv(env, Next(env, s, step))
  {
    hide LogOf, GoodFiles, Append, Reopen, DropBelow, Room;
    match step
    case DoAppend(entry) => AppendKeeps(env, s, entry);
    case Restart => RestartKeeps(env, s);
    case Compact(before) => CompactKeeps(env, s, before);
  }

  lemma FirstLife(env: Env, maxSize: nat)
    requires maxSize < SEGMENT_SPAN
    ensures LifeInv(env, Life(Reopen(env, [], maxSize), []))
  {
    hide LogOf, WalInv;
    FreshWal(env, maxSize);
  }

  /** Segment ids are not reused either: the newest id never goes down. */
  lemma {:induction false} SegmentIdsGrow(env: Env, lives: seq<Life>, steps: seq<Step>, maxSize: nat, i: nat, j: nat)
    requires Faithful(env) && maxSize < SEGMENT_SPAN && IsLife(env, lives, steps, maxSize) && i <= j < |lives|
    ensures lives[i].wal.files != [] && lives[j].wal.files != [] && Last(lives[i].wal).id <= Last(lives[j].wal).id
  {
    hide Next, Enabled, LogOf, GoodFiles;
    OrderSurvives(env, lives, steps, maxSize, j);
    if i < j {
      SegmentIdsGrow(env, lives, steps, maxSize, i, j - 1);
      OrderSurvives(env, lives, steps, maxSize, j - 1);
      assert lives[j] == Next(env, lives[j - 1], steps[j - 1]);
      NewestSegmentStays(env, lives[j - 1], steps[j - 1]);
    }
  }

  // ---------------------------------------------------------------------------------------------------------------
  // Segments are filled
  // ---------------------------------------------------------------------------------------------------------------

  /** The size on disk of the first record of a file. */
  function FirstSize(env: Env, data: Buffer): nat
    requires FileItems(env, data) != []
  {
    RECORD_HEADER_SIZE + |FileItems(env, data)[0].item.payload|
  }

  /** The first record of the second file would not have fitted into the first. */
  ghost predicate NoWaste(env: Env, f: SegFile, g: SegFile, maxSize: nat) {
    FileItems(env, g.data) != [] ==> |f.data| + FirstSize(env, g.data) > maxSize
  }

  ghost predicate Packed(env: Env, w: WalState) {
    forall i :: 0 <= i < |w.files| - 1 ==> NoWaste(env, w.files[i], w.files[i + 1], w.maxSize)
  }

  /** The newest of several files has no record yet. */
  ghost predicate Idle(w: WalState) { |w.files| >= 2 && Last(w).data == [] }

  /** What an append makes of the newest file. */
  ghost predicate LastGains(env: Env, w: WalState, a: Appended, entry: WalEntry)
    requires w.files != [] && a.wal.files != []
  {
    var size := RECORD_HEADER_SIZE + |env.serialize(entry)|;
    var before := if |Last(w).data| + size <= w.maxSize then Last(w).data else [];
    var items, items' := FileItems(env, before), FileItems(env, Last(a.wal).data);
    if a.result.Ok? then
      && |items'| == |items| + 1 && items <= items'
      && RECORD_HEADER_SIZE + |items'[|items|].item.payload| == size
    else Last(a.wal).data == before
  }

  lemma AppendGains(env: Env, w: WalState, entry: WalEntry)
    requires Faithful(env) && WalInv(env, w) && Room(w)
    ensures w.files != [] && LastGains(env, w, Append(env, w, entry), entry)
  {
    InvSequence(env, w);
    LastIsClean(env, w);
    AppendSplits(env, w, entry);
    EmptyIsClean(env);
    hide Append, LogOf, GoodFiles, Encode, Pack, FileItems, NewRecord;
    var size := RECORD_HEADER_SIZE + |env.serialize(entry)|;
    var before := if |Last(w).data| + size <= w.maxSize then Last(w).data else [];
    if |env.serialize(entry)| <= MAX_RECORD_SIZE {
      RecordFits(env, w, entry);
      FileAppend(env, before, RecordFor(env, w, entry));
    }
  }

  lemma RecordFits(env: Env, w: WalState, entry: WalEntry)
    requires Faithful(env) && WalInv(env, w) && w.files != [] && |env.serialize(entry)| <= MAX_RECORD_SIZE
    ensures var r := RecordFor(env, w, entry);
            WellFormed(env.crc, r) && env.deserialize(r.payload).Some? && r.payload == env.serialize(entry)
  {
    hide LogOf, GoodFiles;
  }

  lemma LastIsClean(env: Env, w: WalState)
    requires WalInv(env, w)
    ensures Clean(env, Last(w).data)
  {
    hide LogOf, Clean;
  }

  /**
   Segments are filled before a new one is begun: an append keeps neighbouring segments packed if and only if it does
   not put its record into an idle newest segment although the one before still had room for it.
   */
  lemma AppendKeepsPacked(env: Env, w: WalState, entry: WalEntry)
    requires Faithful(env) && WalInv(env, w) && Room(w) && Packed(env, w)
    ensures var a, n := Append(env, w, entry), |w.files|;
            Packed(env, a.wal) <==>
              !(&& a.result.Ok? && Idle(w)
                && |w.files[n - 2].data| + RECORD_HEADER_SIZE + |env.serialize(entry)| <= w.maxSize)
  {
    var a, n := Append(env, w, entry), |w.files|;
    AppendPlaces(env, w, entry);
    AppendGains(env, w, entry);
    AppendKeepsLimit(env, w, entry);
    EmptyIsClean(env);
    LastIsClean(env, w);
    hide Append, WalInv, FileItems, Room, Faithful, Pack;
    assert forall i :: 0 <= i < |a.wal.files| - 1 ==> a.wal.files[i] == w.files[i];
    var m := |a.wal.files| - 1;
    forall i | 0 <= i < m - 1 ensures NoWaste(env, a.wal.files[i], a.wal.files[i + 1], w.maxSize) {
      assert NoWaste(env, w.files[i], w.files[i + 1], w.maxSize);
    }
    if m > 0 {
      LastPair(env, w, a, entry);
    }
  }

  lemma AppendKeepsLimit(env: Env, w: WalState, entry: WalEntry)
    requires w.files != []
    ensures Append(env, w, entry).wal.maxSize == w.maxSize
  {
    hide Encode, Pack;
  }

  /** The newest file and the one before it. */
  lemma LastPair(env: Env, w: WalState, a: Appended, entry: WalEntry)
    requires w.files != [] && a.wal.files != [] && a.wal.maxSize == w.maxSize && |a.wal.files| >= 2
    requires PlacedIn(w, a, RECORD_HEADER_SIZE + |env.serialize(entry)|) && LastGains(env, w, a, entry)
    requires Packed(env, w) && FileItems(env, []) == [] && Clean(env, Last(w).data)
    ensures var m, n := |a.wal.files| - 1, |w.files|;
            NoWaste(env, a.wal.files[m - 1], a.wal.files[m], w.maxSize) <==>
              !(&& a.result.Ok? && Idle(w)
                && |w.files[n - 2].data| + RECORD_HEADER_SIZE + |env.serialize(entry)| <= w.maxSize)
  {
    hide FileItems, Pack;
    var m, n := |a.wal.files| - 1, |w.files|;
    assert a.wal.files[m - 1] == w.files[m - 1];
    if m == n - 1 {
      assert NoWaste(env, w.files[n - 2], w.files[n - 1], w.maxSize);
      if Last(w).data != [] {
        HasRecord(env, Last(w).data);
      }
    }
  }

  /** A clean file with bytes in it has a record. */
  lemma HasRecord(env: Env, data: Buffer)
    requires Clean(env, data) && data != []
    ensures FileItems(env, data) != []
  {
    DecoderIncremental(env.crc);
    hide Decode;
  }

  /** Every entry that is appended is small enough to be one record. */
  ghost predicate Encodable(env: Env, steps: seq<Step>) {
    forall i :: 0 <= i < |steps| && steps[i].DoAppend? ==> |env.serialize(steps[i].entry)| <= MAX_RECORD_SIZE
  }

  lemma StepKeepsPacked(env: Env, s: Life, step: Step)
    requires Faithful(env) && LifeInv(env, s) && Enabled(env, s, step) && Packed(env, s.wal) && !Idle(s.wal)
    requires step.DoAppend? ==> |env.serialize(step.entry)| <= MAX_RECORD_SIZE
    ensures var s' := Next(env, s, step); Packed(env, s'.wal) && !Idle(s'.wal)
  {
    hide LogOf, GoodFiles, Append, FileItems, Pack, DropBelow, Packed;
    match step
    case DoAppend(entry) =>
      AppendKeepsPacked(env, s.wal, entry);
      AppendPlaces(env, s.wal, entry);
      AppendGrowsLog(env, s.wal, entry);
    case Restart => SamePacked(env, s.wal, Reopen(env, s.wal.files, s.wal.maxSize));
    case Compact(before) =>
      CompactKeeps(env, s, before);
      DropIsSuffix(s.wal.files, SegmentOf(before));
      SuffixPacked(env, s.wal, Next(env, s, step).wal);
  }

  lemma SamePacked(env: Env, w: WalState, w': WalState)
    requires Packed(env, w) && w'.files == w.files && w'.maxSize == w.maxSize
    ensures Packed(env, w')
  {
    hide FileItems;
  }

  lemma {:induction false} DropIsSuffix(files: seq<SegFile>, target: nat)
    ensures DropBelow(files, target) == files[|files| - |DropBelow(files, target)|..]
  {
    if files != [] && files[0].id < target {
      DropIsSuffix(files[1..], target);
    }
  }

  lemma SuffixPacked(env: Env, w: WalState, w': WalState)
    requires Packed(env, w) && |w'.files| <= |w.files| && w'.files == w.files[|w.files| - |w'.files|..]
    requires w'.maxSize == w.maxSize
    ensures Packed(env, w')
  {
    hide FileItems;
    var d := |w.files| - |w'.files|;
    forall i | 0 <= i < |w'.files| - 1 ensures NoWaste(env, w'.files[i], w'.files[i + 1], w'.maxSize) {
      assert w'.files[i] == w.files[d + i] && w'.files[i + 1] == w.files[d + i + 1];
      assert NoWaste(env, w.files[d + i], w.files[d + i + 1], w.maxSize);
    }
  }

  /**
   Over any life in which every entry can be encoded, no segment is begun while the one before has room: the first
   record of each segment would not have fitted into its predecessor.
   */
  lemma {:induction false} SegmentsArePacked(env: Env, lives: seq<Life>, steps: seq<Step>, maxSize: nat, i: nat)
    requires Faithful(env) && maxSize < SEGMENT_SPAN && IsLife(env, lives, steps, maxSize) && i < |lives|
    requires Encodable(env, steps)
    ensures lives[i].wal.files != [] && Packed(env, lives[i].wal) && !Idle(lives[i].wal)
  {
    hide LifeInv, Next, Enabled, Packed;
    if i == 0 {
      FreshIsPacked(env, maxSize);
    } else {
      SegmentsArePacked(env, lives, steps, maxSize, i - 1);
      OrderSurvives(env, lives, steps, maxSize, i - 1);
      assert lives[i] == Next(env, lives[i - 1], steps[i - 1]) && Enabled(env, lives[i - 1], steps[i - 1]);
      StepKeepsPacked(env, lives[i - 1], steps[i - 1]);
      OrderSurvives(env, lives, steps, maxSize, i);
      HasFiles(env, lives[i]);
    }
  }

  lemma HasFiles(env: Env, s: Life)
    requires LifeInv(env, s)
    ensures s.wal.files != []
  {
    hide LogOf;
  }

  lemma FreshIsPacked(env: Env, maxSize: nat)
    ensures var w := Reopen(env, [], maxSize); w.files != [] && Packed(env, w) && !Idle(w)
  {
    hide FileItems;
  }

  /**
   An entry too large to encode makes the log begin a segment all the same and then leaves it idle, so that the next
   entry goes there although the segment before still has room for it.
   */
  lemma OversizedLeavesRoom(env: Env, w: WalState, big: WalEntry, small: WalEntry)
    requires Faithful(env) && WalInv(env, w) && Room(w) && Packed(env, w) && Last(w).data != []
    requires |env.serialize(big)| > MAX_RECORD_SIZE && |env.serialize(small)| <= MAX_RECORD_SIZE
    requires Room(Append(env, w, big).wal)
    requires |Last(w).data| + RECORD_HEADER_SIZE + |env.serialize(big)| > w.maxSize
    requires |Last(w).data| + RECORD_HEADER_SIZE + |env.serialize(small)| <= w.maxSize
    ensures Packed(env, Append(env, w, big).wal)
    ensures !Packed(env, Append(env, Append(env, w, big).wal, small).wal)
  {
    AppendGrowsLog(env, w, big);
    AppendPlaces(env, w, big);
    AppendKeepsPacked(env, w, big);
    var w1 := Append(env, w, big).wal;
    AppendGrowsLog(env, w1, small);
    AppendKeepsPacked(env, w1, small);
    hide Append, WalInv, FileItems, Room, Faithful, Pack, Packed, LogOf;
    var n := |w1.files|;
    assert Idle(w1) && w1.files[n - 2] == Last(w);
  }
}
