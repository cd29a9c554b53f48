/**
 The whole stack: the engine on its log files with snapshots beside it. Ties what the files hold to the runs of
 `Compaction`, so that compaction is proved for the files themselves.
 */
module Stack {
  import opened Common
  import opened Bytes
  import opened Record
  import opened Entry
  import opened Offset
  import opened Wal
  import opened Engine
  import opened EngineSafety
  import opened Crash
  import Compaction
  import LogOrder

  /**
   The files hold the retained part of everything ever logged, the tables are those of the run, and the last record
   is still in the files.
   */
  ghost predicate Linked(env: Env, sys: System, s: Compaction.Store) {
    && WalInv(env, sys.wal) && Durable(sys.wal.files)
    && Compaction.StoreInv(env, s)
    && sys.es == s.db.es && LogIn(env, sys) == Compaction.Retained(s)
    && s.top == if s.db.log == [] then 0 else s.db.log[|s.db.log| - 1].offset
  }

  /** What is left of a log still ends with its last record. */
  lemma LastRetained(env: Env, s: Compaction.Store)
    requires Compaction.StoreInv(env, s) && s.db.log != [] && s.top == s.db.log[|s.db.log| - 1].offset
    ensures var r := Compaction.Retained(s); r != [] && r[|r| - 1] == s.db.log[|s.db.log| - 1]
  {
    hide DbInv, Compaction.CreationsFirst, Compaction.LiveIsFold, Compaction.SnapsOk, Compaction.JobsOk,
         Compaction.NewcomersOk, FromSegment;
    var p := Compaction.RetainedIsSuffix(s.db.log, s.floor, s.top);
  }

  /** The offset that the WAL gives to a record is above every offset ever given. */
  lemma OffsetIsNew(env: Env, sys: System, s: Compaction.Store, entry: WalEntry)
    requires Faithful(env) && Linked(env, sys, s) && Room(sys.wal)
    ensures var a := Append(env, sys.wal, entry); a.result.Ok? ==> a.result.value.1 > s.top
  {
    hide Append, LogOf, Compaction.StoreInv, Compaction.Retained, Room, GoodFiles;
    AppendGrowsLog(env, sys.wal, entry);
    var a, log := Append(env, sys.wal, entry), LogIn(env, sys);
    if a.result.Ok? {
      var log' := LogOf(env, a.wal.files);
      if s.db.log != [] {
        LastRetained(env, s);
        assert log'[|log| - 1] == log[|log| - 1] && log'[|log|].offset == a.result.value.1;
      } else {
        LogOffsets(env, a.wal.files, a.wal.maxSize);
        FirstId(env, a.wal);
        assert log'[|log|].offset == a.result.value.1;
      }
    }
  }

  lemma FirstId(env: Env, w: WalState)
    requires WalInv(env, w)
    ensures w.files[0].id >= 1
  {
    hide LogOf;
  }

  /** The call of a run that an operation on the files stands for. */
  function CallOf(env: Env, sys: System, op: Op): Call
    requires sys.wal.files != []
  {
    Call(op, WalAnswer(env, sys, op))
  }

  /** No creation of the operation's instance is under way. */
  predicate Free(s: Compaction.Store, op: Op) { !op.Put? ==> op.id !in s.entering }

  lemma CallEnabled(env: Env, sys: System, s: Compaction.Store, op: Op)
    requires Faithful(env) && Linked(env, sys, s) && Room(sys.wal) && Free(s, op)
    ensures Compaction.MayCall(s, CallOf(env, sys, op))
  {
    hide Append, Linked, Room, Decide, LogOf;
    LinkedParts(env, sys, s);
    if Decide(env, sys.es, op).Log? {
      OffsetIsNew(env, sys, s, Decide(env, sys.es, op).entry);
    }
  }

  lemma LinkedParts(env: Env, sys: System, s: Compaction.Store)
    requires Linked(env, sys, s)
    ensures sys.wal.files != [] && WalInv(env, sys.wal) && Durable(sys.wal.files)
    ensures Compaction.StoreInv(env, s) && sys.es == s.db.es && s.floor <= SegmentOf(s.top)
  {
    hide WalInv, LogOf, DbInv, Compaction.CreationsFirst, Compaction.LiveIsFold, Compaction.SnapsOk,
         Compaction.JobsOk, Compaction.NewcomersOk, FromSegment;
    InvSequence(env, sys.wal);
  }

  /** A record above the top is retained behind the others. */
  lemma RetainedGrows(log: Log, rec: LogRecord, floor: nat)
    requires SegmentOf(rec.offset) >= floor
    ensures FromSegment(log + [rec], floor) == FromSegment(log, floor) + [rec]
  {
    FromSegmentConcat(log, [rec], floor);
    FromSegmentUniform([rec], SegmentOf(rec.offset), floor);
  }

  /** An engine call on the files, or the first half of a creation, is a call of the run. */
  lemma LinkedCall(env: Env, sys: System, s: Compaction.Store, op: Op, a: Compaction.Action)
    requires Faithful(env) && Linked(env, sys, s) && Room(sys.wal) && Free(s, op)
    requires (a.Operate? || (a.Start? && op.Create?)) && a.call == CallOf(env, sys, op)
    requires Compaction.ListsUndisturbed(s, a)
    ensures Compaction.Enabled(s, a)
    ensures Linked(env, DoOp(env, sys, op).0, Compaction.Next(env, s, a))
  {
    hide WalInv, Durable, Append, Decide, Commit, LogOf, Room, FromSegment, Compaction.StoreInv;
    CallEnabled(env, sys, s, op);
    LinkedParts(env, sys, s);
    DoIsExec(env, sys, op);
    Compaction.EngineKeeps(env, s, a);
    if Decide(env, sys.es, op).Log? && WalAnswer(env, sys, op).Ok? {
      var (sequence, offset) := WalAnswer(env, sys, op).value;
      RetainedGrows(s.db.log, LogRecord(sequence, offset, Decide(env, sys.es, op).entry), s.floor);
    }
  }

  lemma {:induction false} RetainedTwice(log: Log, floor: nat, target: nat)
    ensures FromSegment(FromSegment(log, floor), target) == FromSegment(log, Max(floor, target))
  {
    if log == [] {
    } else {
      var before, last := log[..|log| - 1], log[|log| - 1];
      RetainedTwice(before, floor, target);
      if SegmentOf(last.offset) >= floor {
        FromSegmentConcat(FromSegment(before, floor), [last], target);
        FromSegmentUniform([last], SegmentOf(last.offset), target);
      }
    }
  }

  /** A segment that can go is none of the newest: the last record is in the files. */
  lemma TopInFiles(env: Env, sys: System, s: Compaction.Store)
    requires Linked(env, sys, s)
    ensures sys.wal.files != [] && SegmentOf(s.top) <= Last(sys.wal).id
  {
    hide LogOf, Durable, GoodFiles, Compaction.StoreInv, Compaction.Retained;
    if s.db.log != [] {
      LastRetained(env, s);
      LogOrder.RecordSegment(env, sys.wal, |LogIn(env, sys)| - 1);
    }
  }

  function Dropped(sys: System, floor: nat): System {
    sys.(wal := sys.wal.(files := DropBelow(sys.wal.files, floor)))
  }

  lemma DropBound(env: Env, s: Compaction.Store, a: Compaction.Action)
    requires Compaction.StoreInv(env, s) && a.Drop? && Compaction.Enabled(s, a)
    ensures a.floor <= SegmentOf(s.top)
  {
    hide DbInv, Compaction.CreationsFirst, Compaction.LiveIsFold, Compaction.SnapsOk, Compaction.NewcomersOk,
         Compaction.Snappable, Compaction.AllBehind;
    assert Compaction.JobOk(s, a.j);
  }

  /** Deleting files up to a target, or any part of the way there, is a step of the run. */
  lemma LinkedDrop(env: Env, sys: System, s: Compaction.Store, a: Compaction.Action)
    requires Linked(env, sys, s) && a.Drop? && Compaction.Enabled(s, a)
    ensures Linked(env, Dropped(sys, a.floor), Compaction.Next(env, s, a))
  {
    hide WalInv, LogOf, Durable, Compaction.StoreInv, FromSegment, DropBelow;
    Compaction.DropKeeps(env, s, a);
    DropBound(env, s, a);
    TopInFiles(env, sys, s);
    DropKeepsInv(env, sys.wal, a.floor);
    RetainedTwice(s.db.log, s.floor, a.floor);
  }

  /** The engine logs nothing, and no file is deleted. */
  predicate InMemory(a: Compaction.Action) { !a.Operate? && !a.Start? && !a.Drop? }

  lemma LinkedInMemory(env: Env, sys: System, s: Compaction.Store, a: Compaction.Action)
    requires Linked(env, sys, s) && Compaction.Enabled(s, a) && Compaction.Careful(s, a) && InMemory(a)
    ensures Linked(env, sys, Compaction.Next(env, s, a))
  {
    hide WalInv, LogOf, Durable, Compaction.StoreInv, FromSegment, Compaction.Careful, Compaction.IsLeast;
    Compaction.NextKeeps(env, s, a);
  }

  /** What the snapshots and the files recover is what the engine holds. */
  lemma LinkedRecovers(env: Env, sys: System, s: Compaction.Store, id: string)
    requires Linked(env, sys, s)
    ensures Compaction.RecoversAs(At(Compaction.Recover(s.snaps, LogIn(env, sys)), id), At(sys.es.instances, id))
  {
    hide WalInv, LogOf, Durable, Compaction.StoreInv, FromSegment, Compaction.Recover, Compaction.RecoversAs;
    Compaction.RecoveryAgrees(env, s, id);
  }

  /** A new log directory with a new engine and no snapshots. */
  lemma LinkedAtFirst(env: Env, maxSize: nat)
    requires maxSize < SEGMENT_SPAN
    ensures Linked(env, System(Reopen(env, [], maxSize), EMPTY), Compaction.START)
  {
    hide WalInv, LogOf, Durable, Compaction.StoreInv;
    FreshWal(env, maxSize);
    Compaction.StartInv(env);
  }

  // ---------------------------------------------------------------------------------------------------------------
  // Whole lives of the files
  // ---------------------------------------------------------------------------------------------------------------

  datatype Deployment = Deployment(sys: System, store: Compaction.Store)

  /** An engine call on the files, the first half of a creation, or a step of another kind. */
  datatype Move = DoCall(op: Op) | DoStart(op: Op) | DoStep(step: Compaction.Action)

  function ActionOf(env: Env, w: Deployment, m: Move): Compaction.Action
    requires w.sys.wal.files != []
  {
    match m
    case DoCall(op) => Compaction.Operate(CallOf(env, w.sys, op))
    case DoStart(op) => Compaction.Start(CallOf(env, w.sys, op))
    case DoStep(step) => step
  }

  /** A call needs room in the WAL; a step what the run asks of it. */
  ghost predicate CanDo(env: Env, w: Deployment, m: Move) {
    && w.sys.wal.files != []
    && match m
       case DoCall(op) => Room(w.sys.wal) && Free(w.store, op)
       case DoStart(op) => Room(w.sys.wal) && Free(w.store, op) && op.Create?
       case DoStep(step) => !step.Operate? && !step.Start? && Compaction.Enabled(w.store, step)
  }

  function FilesAfter(env: Env, sys: System, m: Move): System
    requires sys.wal.files != []
  {
    match m
    case DoCall(op) => DoOp(env, sys, op).0
    case DoStart(op) => DoOp(env, sys, op).0
    case DoStep(Drop(_, floor)) => Dropped(sys, floor)
    case _ => sys
  }

  /** A call is enabled in the run, too, as `LinkedCall` shows; the last clause says what it makes of it. */
  ghost predicate Becomes(env: Env, w: Deployment, m: Move, w': Deployment) {
    && CanDo(env, w, m)
    && w'.sys == FilesAfter(env, w.sys, m)
    && (Compaction.Enabled(w.store, ActionOf(env, w, m)) ==>
          w'.store == Compaction.Next(env, w.store, ActionOf(env, w, m)))
  }

  /** The move keeps the conditions on a run. */
  ghost predicate Considerate(env: Env, w: Deployment, m: Move)
    requires w.sys.wal.files != []
  {
    Compaction.Careful(w.store, ActionOf(env, w, m))
  }

  lemma MoveKeepsLinked(env: Env, w: Deployment, m: Move, w': Deployment)
    requires Faithful(env) && Linked(env, w.sys, w.store) && Becomes(env, w, m, w') && Considerate(env, w, m)
    ensures Linked(env, w'.sys, w'.store)
  {
    var a := ActionOf(env, w, m);
    hide Linked, Compaction.Enabled, Compaction.Next, DoOp, Dropped, WalAnswer, Room, Compaction.Alone,
         Compaction.ListsUndisturbed, Compaction.RequestsWait, Compaction.OneStore, Free;
    match m
    case DoCall(op) => LinkedCall(env, w.sys, w.store, op, a);
    case DoStart(op) => LinkedCall(env, w.sys, w.store, op, a);
    case DoStep(step) =>
      if step.Drop? {
        LinkedDrop(env, w.sys, w.store, step);
      } else {
        LinkedInMemory(env, w.sys, w.store, step);
      }
  }

  ghost predicate IsHistory(env: Env, states: seq<Deployment>, moves: seq<Move>, maxSize: nat) {
    && |states| == |moves| + 1
    && states[0] == Deployment(System(Reopen(env, [], maxSize), EMPTY), Compaction.START)
    && forall i :: 0 <= i < |moves| ==>
         Becomes(env, states[i], moves[i], states[i + 1]) && Considerate(env, states[i], moves[i])
  }

  lemma {:induction false} HistoryIsLinked(env: Env, states: seq<Deployment>, moves: seq<Move>, maxSize: nat, k: nat)
    requires Faithful(env) && maxSize < SEGMENT_SPAN && IsHistory(env, states, moves, maxSize) && k < |states|
    ensures Linked(env, states[k].sys, states[k].store)
  {
    hide Linked, Becomes, Considerate;
    if k == 0 {
      LinkedAtFirst(env, maxSize);
    } else {
      HistoryIsLinked(env, states, moves, maxSize, k - 1);
      MoveKeepsLinked(env, states[k - 1], moves[k - 1], states[k]);
    }
  }

  /**
   Down to the bytes: whatever engine calls, creations under way, compactions and snapshot requests are mixed on the
   segment files, as long as they keep the conditions on a run, the indexed snapshots and the records read back from
   the files that are left recover every live instance as the engine has it, and no deleted instance as live. Deletion
   goes file by file, so this holds in the middle of one, too.
   */
  lemma FilesPreserveMeaning(env: Env, states: seq<Deployment>, moves: seq<Move>, maxSize: nat, k: nat, id: string)
    requires Faithful(env) && maxSize < SEGMENT_SPAN && IsHistory(env, states, moves, maxSize) && k < |states|
    ensures var w := states[k];
            Compaction.RecoversAs(At(Compaction.Recover(w.store.snaps, LogOf(env, w.sys.wal.files)), id),
                                  At(w.sys.es.instances, id))
  {
    hide Linked, IsHistory, Compaction.RecoversAs, Compaction.Recover;
    HistoryIsLinked(env, states, moves, maxSize, k);
    LinkedRecovers(env, states[k].sys, states[k].store, id);
  }

  /** Recovery brings back these instances. */
  ghost predicate BringsBack(snaps: map<string, Compaction.Snapshot>, log: Log, instances: map<string, Instance>) {
    forall id :: Compaction.RecoversAs(At(Compaction.Recover(snaps, log), id), At(instances, id))
  }

  lemma LinkedBringsBack(env: Env, sys: System, s: Compaction.Store)
    requires Linked(env, sys, s)
    ensures BringsBack(s.snaps, LogIn(env, sys), sys.es.instances)
  {
    hide Linked, Compaction.RecoversAs, Compaction.Recover;
    forall id ensures Compaction.RecoversAs(At(Compaction.Recover(s.snaps, LogIn(env, sys)), id), At(sys.es.instances, id)) {
      LinkedRecovers(env, sys, s, id);
    }
  }

  /**
   A crash while a call runs on compacted files, then repair, then recovery from the snapshots and what is left of the
   files: the instances before the call, or the instances after it.
   */
  lemma CrashThenRecover(env: Env, sys: System, s: Compaction.Store, op: Op, contents: seq<Buffer>)
    requires Faithful(env) && Linked(env, sys, s) && Room(sys.wal) && Survives(FilesDuring(env, sys, op), contents)
    ensures var log := LogOf(env, RepairFiles(env, FilesDuring(env, sys, op), contents));
            || BringsBack(s.snaps, log, sys.es.instances)
            || BringsBack(s.snaps, log, DoOp(env, sys, op).0.es.instances)
  {
    hide Linked, WalInv, Durable, RepairFiles, Decide, Write, Append, Commit, Room, LogOf, BringsBack,
         Compaction.Next, Compaction.Enabled, Compaction.StoreInv;
    LinkedParts(env, sys, s);
    LinkedBringsBack(env, sys, s);
    var d := Decide(env, sys.es, op);
    if d.Reply? {
      CrashWhenDurable(env, sys.wal, contents);
    } else {
      CrashInWrite(env, sys.wal, d.entry, contents);
      if RepairFiles(env, FilesDuring(env, sys, op), contents) == Append(env, sys.wal, d.entry).wal.files {
        var s0, a := Forgotten(s), Compaction.Operate(CallOf(env, sys, op));
        LinkedForgets(env, sys, s);
        LinkedCall(env, sys, s0, op, a);
        LinkedBringsBack(env, DoOp(env, sys, op).0, Compaction.Next(env, s0, a));
        SameSnaps(env, s0, CallOf(env, sys, op));
      } else {
        RotatedIsGood(env, sys.wal, d.entry);
      }
    }
  }

  /** A crash ends all jobs and all creations under way. */
  function Forgotten(s: Compaction.Store): Compaction.Store { s.(jobs := map[], entering := {}) }

  lemma LinkedForgets(env: Env, sys: System, s: Compaction.Store)
    requires Linked(env, sys, s)
    ensures Linked(env, sys, Forgotten(s))
  {
    hide WalInv, Durable, LogOf, Compaction.StoreInv, FromSegment;
    Compaction.ForgettingKeeps(env, s);
  }

  lemma SameSnaps(env: Env, s: Compaction.Store, call: Call)
    requires Compaction.Enabled(s, Compaction.Operate(call))
    ensures Compaction.Next(env, s, Compaction.Operate(call)).snaps == s.snaps
  {
  }

  /** A crash at rest, for example between two deletions: repair leaves the files, and recovery brings back all. */
  lemma CrashAtRest(env: Env, sys: System, s: Compaction.Store, contents: seq<Buffer>)
    requires Linked(env, sys, s) && Survives(sys.wal.files, contents)
    ensures BringsBack(s.snaps, LogOf(env, RepairFiles(env, sys.wal.files, contents)), sys.es.instances)
  {
    hide Linked, WalInv, Durable, RepairFiles, LogOf, BringsBack;
    LinkedParts(env, sys, s);
    LinkedBringsBack(env, sys, s);
    CrashWhenDurable(env, sys.wal, contents);
  }
}
