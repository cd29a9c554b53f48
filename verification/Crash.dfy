/** The engine on its log files, through operations, crashes, repairs and restarts. */
module Crash {
  import opened Common
  import opened Bytes
  import opened Record
  import opened Entry
  import opened Offset
  import opened Wal
  import opened Engine

  datatype System = System(wal: WalState, es: EngineState)

  /** An operation; a crash at rest; a crash while an operation's record is written but not yet synced. */
  datatype Event = Do(op: Op) | CrashIdle(contents: seq<Buffer>) | CrashDuring(op: Op, contents: seq<Buffer>)

  function LogIn(env: Env, s: System): Log { LogOf(env, s.wal.files) }

  function DoOp(env: Env, s: System, op: Op): (System, Response)
    requires s.wal.files != []
  {
    match Decide(env, s.es, op)
    case Reply(r) => (s, r)
    case Log(entry) =>
      var a := Append(env, s.wal, entry);
      match a.result
      case Err(e) => (System(a.wal, s.es), Failed(WalFailed(e)))
      case Ok((sequence, offset)) =>
        var rec := LogRecord(sequence, offset, entry);
        (System(a.wal, Commit(env, s.es, rec)), Answer(rec))
  }

  /** `repair_wal` has run; the WAL is opened and replayed into a new engine. */
  function Boot(env: Env, files: seq<SegFile>, maxSize: nat): System {
    var wal := Reopen(env, files, maxSize);
    System(wal, Replay(env, LogOf(env, wal.files)))
  }

  /** The files at the moment of a crash while `op` runs. */
  function FilesDuring(env: Env, s: System, op: Op): seq<SegFile>
    requires s.wal.files != []
  {
    match Decide(env, s.es, op)
    case Reply(_) => s.wal.files
    case Log(entry) => Write(env, s.wal, entry).wal.files
  }

  ghost predicate Possible(env: Env, s: System, ev: Event)
    requires s.wal.files != []
  {
    match ev
    case Do(_) => Room(s.wal)
    case CrashIdle(contents) => Survives(s.wal.files, contents)
    case CrashDuring(op, contents) => Room(s.wal) && Survives(FilesDuring(env, s, op), contents)
  }

  ghost function Next(env: Env, s: System, ev: Event): System
    requires s.wal.files != [] && Possible(env, s, ev)
  {
    match ev
    case Do(op) => DoOp(env, s, op).0
    case CrashIdle(contents) => Boot(env, RepairFiles(env, s.wal.files, contents), s.wal.maxSize)
    case CrashDuring(op, contents) =>
      Boot(env, RepairFiles(env, FilesDuring(env, s, op), contents), s.wal.maxSize)
  }

  ghost predicate SysInv(env: Env, s: System) {
    WalInv(env, s.wal) && Durable(s.wal.files) && DbInv(env, Db(s.es, LogIn(env, s)))
  }

  /** What the WAL answers to the append that an operation asks for, if it asks. */
  function WalAnswer(env: Env, s: System, op: Op): AppendResult
    requires s.wal.files != []
  {
    match Decide(env, s.es, op)
    case Log(entry) => Append(env, s.wal, entry).result
    case _ => Err(InvalidHeader)
  }

  /** The step against the engine without files: an operation is atomic, and a crash is a replay of the log. */
  ghost predicate StepSafe(env: Env, s: System, ev: Event, s': System)
    requires s.wal.files != []
  {
    var log, log' := LogIn(env, s), LogIn(env, s');
    match ev
    case Do(op) => Db(s'.es, log') == Exec(env, Db(s.es, log), Call(op, WalAnswer(env, s, op))).0
    case CrashIdle(_) => log' == log && SameTables(s'.es, s.es)
    case CrashDuring(op, _) =>
      || (log' == log && SameTables(s'.es, s.es))
      || (log' == LogIn(env, DoOp(env, s, op).0) && SameTables(s'.es, DoOp(env, s, op).0.es))
  }

  /** An operation on the files is the operation on the log. */
  lemma DoIsExec(env: Env, s: System, op: Op)
    requires Faithful(env) && WalInv(env, s.wal) && Durable(s.wal.files) && Room(s.wal)
    ensures var s' := DoOp(env, s, op).0;
            && WalInv(env, s'.wal) && Durable(s'.wal.files)
            && (Db(s'.es, LogIn(env, s')), DoOp(env, s, op).1)
               == Exec(env, Db(s.es, LogIn(env, s)), Call(op, WalAnswer(env, s, op)))
  {
    hide WalInv, Durable, Append, Decide, Commit, LogOf, Room;
    if Decide(env, s.es, op).Log? {
      AppendGrowsLog(env, s.wal, Decide(env, s.es, op).entry);
      assert LogIn(env, s) + [] == LogIn(env, s);
    }
  }

  /** Booting from the files of a good WAL gives a good system on the same log. */
  lemma BootKeepsLog(env: Env, w: WalState)
    requires WalInv(env, w) && Durable(w.files) && LogOk(env, LogOf(env, w.files))
    ensures SysInv(env, Boot(env, w.files, w.maxSize)) && LogIn(env, Boot(env, w.files, w.maxSize)) == LogOf(env, w.files)
    ensures Boot(env, w.files, w.maxSize).es == Replay(env, LogOf(env, w.files))
  {
    hide WalInv, Durable, Reopen, LogOk, Replay;
    ReopenKeepsLog(env, w);
    Restarted(env, LogOf(env, w.files));
  }

  lemma SameTablesSym(a: EngineState, b: EngineState)
    requires SameTables(a, b)
    ensures SameTables(b, a)
  {
  }

  /** A crash with nothing in flight: everything acknowledged is there after the restart. */
  lemma CrashIdleSafe(env: Env, s: System, contents: seq<Buffer>)
    requires SysInv(env, s) && Survives(s.wal.files, contents)
    ensures var s' := Boot(env, RepairFiles(env, s.wal.files, contents), s.wal.maxSize);
            SysInv(env, s') && LogIn(env, s') == LogIn(env, s) && SameTables(s'.es, s.es)
  {
    hide WalInv, Durable, Survives, RepairFiles, LogOk, Replay, SameTables;
    CrashWhenDurable(env, s.wal, contents);
    BootKeepsLog(env, s.wal);
    SameTablesSym(s.es, Replay(env, LogIn(env, s)));
  }

  /** A crash with a record in flight: the state before the operation, or the state after it. */
  lemma CrashDuringSafe(env: Env, s: System, op: Op, contents: seq<Buffer>)
    requires Faithful(env) && SysInv(env, s) && Room(s.wal) && Survives(FilesDuring(env, s, op), contents)
    ensures var s' := Boot(env, RepairFiles(env, FilesDuring(env, s, op), contents), s.wal.maxSize);
            SysInv(env, s') && StepSafe(env, s, CrashDuring(op, contents), s')
  {
    hide SysInv, WalInv, Durable, RepairFiles, LogIn, SameTables, Decide, Boot, Write, DoOp, Room;
    SysInvParts(env, s);
    var d := Decide(env, s.es, op);
    if d.Reply? {
      CrashIdleSafe(env, s, contents);
    } else {
      CrashWriting(env, s, op, d.entry, contents);
    }
  }

  /** The same for an operation that writes. */
  lemma CrashWriting(env: Env, s: System, op: Op, entry: WalEntry, contents: seq<Buffer>)
    requires Faithful(env) && SysInv(env, s) && Room(s.wal) && Decide(env, s.es, op) == Log(entry)
    requires s.wal.files != [] && Survives(Write(env, s.wal, entry).wal.files, contents)
    ensures var s' := Boot(env, RepairFiles(env, Write(env, s.wal, entry).wal.files, contents), s.wal.maxSize);
            && SysInv(env, s')
            && (|| (LogIn(env, s') == LogIn(env, s) && SameTables(s'.es, s.es))
                || (LogIn(env, s') == LogIn(env, DoOp(env, s, op).0) && SameTables(s'.es, DoOp(env, s, op).0.es)))
  {
    hide SysInv, WalInv, Durable, RepairFiles, LogIn, SameTables, Decide, Boot, Write, DoOp, Room, Append, RotateFor,
         Faithful;
    SysInvParts(env, s);
    CrashInWrite(env, s.wal, entry, contents);
    var repaired := RepairFiles(env, Write(env, s.wal, entry).wal.files, contents);
    var isAfter := repaired == Append(env, s.wal, entry).wal.files;
    hide Survives;
    if isAfter {
      BootAfter(env, s, op);
    } else {
      BootBefore(env, s, entry);
    }
  }

  lemma BootBefore(env: Env, s: System, entry: WalEntry)
    requires SysInv(env, s) && Room(s.wal)
    ensures var w1 := RotateFor(s.wal.(nextSequence := s.wal.nextSequence + 1),
                                RECORD_HEADER_SIZE + |env.serialize(entry)|);
            var s' := Boot(env, w1.files, s.wal.maxSize);
            SysInv(env, s') && LogIn(env, s') == LogIn(env, s) && SameTables(s'.es, s.es)
  {
    hide SysInv, WalInv, Durable, Boot, RotateFor, SameTables, DbInv, Room, LogOf;
    SysInvParts(env, s);
    RotatedIsGood(env, s.wal, entry);
    BootOn(env, Db(s.es, LogIn(env, s)),
           RotateFor(s.wal.(nextSequence := s.wal.nextSequence + 1), RECORD_HEADER_SIZE + |env.serialize(entry)|));
  }

  lemma BootAfter(env: Env, s: System, op: Op)
    requires Faithful(env) && SysInv(env, s) && Room(s.wal) && Decide(env, s.es, op).Log?
    ensures var s1 := DoOp(env, s, op).0;
            var s' := Boot(env, Append(env, s.wal, Decide(env, s.es, op).entry).wal.files, s.wal.maxSize);
            SysInv(env, s') && LogIn(env, s') == LogIn(env, s1) && SameTables(s'.es, s1.es)
  {
    hide SysInv, WalInv, Durable, Boot, SameTables, DbInv, Decide, DoOp, Append, Exec, Room;
    SysInvParts(env, s);
    DoIsExec(env, s, op);
    ExecKeepsInv(env, Db(s.es, LogIn(env, s)), Call(op, WalAnswer(env, s, op)));
    AppendKeepsMaxSize(env, s, op);
    var s1 := DoOp(env, s, op).0;
    BootOn(env, Db(s1.es, LogIn(env, s1)), s1.wal);
  }

  lemma SysInvParts(env: Env, s: System)
    requires SysInv(env, s)
    ensures WalInv(env, s.wal) && Durable(s.wal.files) && DbInv(env, Db(s.es, LogIn(env, s))) && s.wal.files != []
  {
  }

  lemma AppendKeepsMaxSize(env: Env, s: System, op: Op)
    requires Faithful(env) && WalInv(env, s.wal) && Room(s.wal) && Decide(env, s.es, op).Log?
    ensures DoOp(env, s, op).0.wal == Append(env, s.wal, Decide(env, s.es, op).entry).wal
    ensures DoOp(env, s, op).0.wal.maxSize == s.wal.maxSize
  {
    hide WalInv, Decide, Append, Commit, Room;
    AppendGrowsLog(env, s.wal, Decide(env, s.es, op).entry);
  }

  lemma RotatedIsGood(env: Env, w: WalState, entry: WalEntry)
    requires WalInv(env, w) && Room(w) && Durable(w.files)
    ensures var w1 := RotateFor(w.(nextSequence := w.nextSequence + 1), RECORD_HEADER_SIZE + |env.serialize(entry)|);
            && WalInv(env, w1) && Durable(w1.files) && LogOf(env, w1.files) == LogOf(env, w.files)
            && w1.maxSize == w.maxSize
  {
    hide WalInv, Durable, RotateFor, LogOf;
    var w0, size := w.(nextSequence := w.nextSequence + 1), RECORD_HEADER_SIZE + |env.serialize(entry)|;
    InvSequence(env, w);
    BumpSequence(env, w);
    RotateForReady(env, w0, size);
    RotateForDurable(w0, size);
  }

  /** Booting on the files of a WAL that holds a good engine's log gives that engine's tables. */
  lemma BootOn(env: Env, db: Db, w: WalState)
    requires WalInv(env, w) && Durable(w.files) && DbInv(env, db) && db.log == LogOf(env, w.files)
    ensures var s := Boot(env, w.files, w.maxSize);
            SysInv(env, s) && LogIn(env, s) == db.log && SameTables(s.es, db.es)
  {
    hide SysInv, WalInv, Durable, LogOk, Replay, SameTables, Boot, LogOf;
    BootKeepsLog(env, w);
    SameTablesSym(db.es, Replay(env, db.log));
  }

  lemma NextSafe(env: Env, s: System, ev: Event)
    requires Faithful(env) && SysInv(env, s) && Possible(env, s, ev)
    ensures SysInv(env, Next(env, s, ev)) && StepSafe(env, s, ev, Next(env, s, ev))
  {
    hide WalInv, Durable, Room, Survives, LogOk, Replay, SameTables, Decide, Boot, Write, Append, RepairFiles, DoOp;
    SysInvParts(env, s);
    match ev
    case Do(op) =>
      DoIsExec(env, s, op);
      ExecKeepsInv(env, Db(s.es, LogIn(env, s)), Call(op, WalAnswer(env, s, op)));
    case CrashIdle(contents) => CrashIdleSafe(env, s, contents);
    case CrashDuring(op, contents) => CrashDuringSafe(env, s, op, contents);
  }

  /** A run: each event possible where it happens, each state following from the one before. */
  ghost predicate IsRun(env: Env, states: seq<System>, events: seq<Event>) {
    && |states| == |events| + 1
    && forall i :: 0 <= i < |events| ==>
         states[i].wal.files != [] && Possible(env, states[i], events[i])
         && states[i + 1] == Next(env, states[i], events[i])
  }

  /**
   Crash safety over any number of operate, crash, repair and reopen cycles: every step of the run is an atomic
   operation, a restart that loses nothing, or a crash that lands before or after the operation in flight.
   */
  lemma {:induction false} CrashSafety(env: Env, states: seq<System>, events: seq<Event>, k: nat)
    requires Faithful(env) && IsRun(env, states, events) && SysInv(env, states[0]) && k < |states|
    ensures SysInv(env, states[k])
    ensures k < |events| ==> StepSafe(env, states[k], events[k], states[k + 1])
    decreases k
  {
    hide SysInv, Possible, Next, StepSafe;
    if k > 0 {
      CrashSafety(env, states, events, k - 1);
      NextSafe(env, states[k - 1], events[k - 1]);
    }
    if k < |events| {
      NextSafe(env, states[k], events[k]);
    }
  }

  lemma StepKeepsLog(env: Env, s: System, ev: Event, s': System)
    requires s.wal.files != [] && StepSafe(env, s, ev, s') && Faithful(env) && SysInv(env, s) && Possible(env, s, ev)
    ensures LogIn(env, s) <= LogIn(env, s') && |LogIn(env, s')| <= |LogIn(env, s)| + 1
  {
    hide WalInv, Durable, Replay, LogOk, SameTables, Decide, Commit, Append, Room, LogOf, DoOp;
    var log := LogIn(env, s);
    match ev
    case Do(op) =>
    case CrashIdle(_) =>
    case CrashDuring(op, _) => DoIsExec(env, s, op);
  }

  /** No acknowledged record is ever lost, moved or renumbered: earlier logs are prefixes of later ones. */
  lemma {:induction false} NothingIsLost(env: Env, states: seq<System>, events: seq<Event>, j: nat, k: nat)
    requires Faithful(env) && IsRun(env, states, events) && SysInv(env, states[0]) && j <= k < |states|
    ensures LogIn(env, states[j]) <= LogIn(env, states[k])
    decreases k
  {
    hide SysInv, Possible, Next, StepSafe, LogIn;
    if j < k {
      NothingIsLost(env, states, events, j, k - 1);
      CrashSafety(env, states, events, k - 1);
      StepKeepsLog(env, states[k - 1], events[k - 1], states[k]);
    }
  }

  /** The first start, on an empty directory. */
  lemma FirstBoot(env: Env, maxSize: nat)
    requires maxSize < SEGMENT_SPAN
    ensures SysInv(env, Boot(env, [], maxSize)) && LogIn(env, Boot(env, [], maxSize)) == []
  {
    hide WalInv, Durable, LogOf, Reopen;
    FreshWal(env, maxSize);
    EmptyDb(env);
  }
}
