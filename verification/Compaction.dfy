/**
 Snapshots, deletion of old segments, and recovery from what is left. Engine calls may come between any two steps of a
 compaction: taking the list of live instances, each snapshot, and the deletion.
 */
module Compaction {
  import opened Common
  import opened Json
  import opened Definition
  import opened Entry
  import opened Offset
  import opened Wal
  import opened Engine
  import opened EngineSafety

  datatype Snapshot = Snapshot(
    snapshotId: string, instanceId: string, machine: string, version: nat, state: string, ctx: Value, walOffset: nat)

  /** `from_instance`: neither the lifecycle nor the last event id is kept. */
  function FromInstance(i: Instance, snapshotId: string): Snapshot {
    Snapshot(snapshotId, i.id, i.machine, i.version, i.state, i.ctx, i.lastWalOffset)
  }

  /** `to_instance`: always active. */
  function ToInstance(s: Snapshot): Instance {
    Instance(s.instanceId, s.machine, s.version, s.state, s.ctx, Active, None, s.walOffset)
  }

  // ---------------------------------------------------------------------------------------------------------------
  // Recovery
  // ---------------------------------------------------------------------------------------------------------------

  /** `apply_wal_entry`: offsets are not tracked. */
  function StoreEntry(m: map<string, Instance>, e: WalEntry): map<string, Instance> {
    match e
    case CreateInstance(id, machine, version, initial, ctx, _) =>
      if id in m then m else m[id := NewInstance(id, machine, version, initial, ctx, 0)]
    case ApplyEvent(id, _, _, to, _, ctx, eventId, _) =>
      if id !in m then m else m[id := m[id].(state := to, ctx := ctx, lastEventId := eventId, lastWalOffset := 0)]
    case DeleteInstance(id, _) =>
      if id !in m then m else m[id := m[id].(lifecycle := Deleted, lastWalOffset := 0)]
    case _ => m
  }

  function StoreFold(m: map<string, Instance>, log: Log): map<string, Instance> {
    if log == [] then m else StoreEntry(StoreFold(m, log[..|log| - 1]), log[|log| - 1].entry)
  }

  /** Loads the indexed snapshots and applies the entries still in the log. */
  function Recover(snaps: map<string, Snapshot>, retained: Log): map<string, Instance> {
    StoreFold(map id | id in snaps :: ToInstance(snaps[id]), retained)
  }

  // ---------------------------------------------------------------------------------------------------------------
  // One instance along the log
  // ---------------------------------------------------------------------------------------------------------------

  function StepOne(i: Option<Instance>, rec: LogRecord, id: string): Option<Instance> {
    if !About(rec.entry, id) then i
    else match i
      case None => if rec.entry.CreateInstance? then Some(Created(rec)) else None
      case Some(i) => Some(Updated(i, rec))
  }

  function FoldOne(start: Option<Instance>, log: Log, id: string): Option<Instance> {
    if log == [] then start else StepOne(FoldOne(start, log[..|log| - 1], id), log[|log| - 1], id)
  }

  /** Equal but for the WAL offset, which recovery does not keep. */
  ghost predicate SameView(a: Option<Instance>, b: Option<Instance>) {
    (a.Some? <==> b.Some?) && (a.Some? ==> a.value == b.value.(lastWalOffset := a.value.lastWalOffset))
  }

  lemma {:induction false} StoreFoldIsFoldOne(m: map<string, Instance>, log: Log, id: string)
    ensures SameView(At(StoreFold(m, log), id), FoldOne(At(m, id), log, id))
  {
    if log == [] {
    } else {
      StoreFoldIsFoldOne(m, log[..|log| - 1], id);
    }
  }

  lemma {:induction false} FoldOneConcat(start: Option<Instance>, a: Log, b: Log, id: string)
    ensures FoldOne(start, a + b, id) == FoldOne(FoldOne(start, a, id), b, id)
    decreases |b|
  {
    if b == [] {
      assert a + b == a;
    } else {
      assert (a + b)[..|a + b| - 1] == a + b[..|b| - 1];
      FoldOneConcat(start, a, b[..|b| - 1], id);
    }
  }

  lemma {:induction false} FoldOneSame(a: Option<Instance>, b: Option<Instance>, log: Log, id: string)
    requires SameView(a, b)
    ensures SameView(FoldOne(a, log, id), FoldOne(b, log, id))
  {
    if log == [] {
    } else {
      FoldOneSame(a, b, log[..|log| - 1], id);
    }
  }

  lemma {:induction false} FoldOneUntouched(start: Option<Instance>, log: Log, id: string)
    requires forall k :: 0 <= k < |log| ==> !About(log[k].entry, id)
    ensures FoldOne(start, log, id) == start
  {
    if log == [] {
    } else {
      FoldOneUntouched(start, log[..|log| - 1], id);
    }
  }

  ghost predicate IsActive(i: Option<Instance>) { i.Some? && i.value.lifecycle.Active? }

  ghost predicate Deletes(log: Log, id: string) {
    exists k :: 0 <= k < |log| && log[k].entry.DeleteInstance? && log[k].entry.instanceId == id
  }

  /** A deletion is final; without one an instance that was there stays active, with the machine it had. */
  lemma {:induction false} FoldOneLifecycle(start: Option<Instance>, log: Log, id: string)
    requires start.Some?
    ensures var end := FoldOne(start, log, id);
            && end.Some? && end.value.machine == start.value.machine && end.value.version == start.value.version
            && end.value.id == start.value.id
            && (IsActive(end) <==> IsActive(start) && !Deletes(log, id))
  {
    if log == [] {
    } else {
      var before := log[..|log| - 1];
      FoldOneLifecycle(start, before, id);
      DeletesLast(log, id);
    }
  }

  lemma DeletesLast(log: Log, id: string)
    requires log != []
    ensures Deletes(log, id) <==>
              Deletes(log[..|log| - 1], id)
              || (log[|log| - 1].entry.DeleteInstance? && log[|log| - 1].entry.instanceId == id)
  {
    var before := log[..|log| - 1];
    if Deletes(before, id) {
      var k :| 0 <= k < |before| && before[k].entry.DeleteInstance? && before[k].entry.instanceId == id;
      assert log[k] == before[k];
    }
    if Deletes(log, id) {
      var k :| 0 <= k < |log| && log[k].entry.DeleteInstance? && log[k].entry.instanceId == id;
      assert k < |log| - 1 ==> before[k] == log[k];
    }
  }

  /** Creations come first: no record of an instance precedes its creation. */
  ghost predicate CreationsFirst(log: Log) {
    forall j, k :: 0 <= j < k < |log| && log[k].entry.CreateInstance? ==> !About(log[j].entry, log[k].entry.instanceId)
  }

  /**
   The key fact about snapshots. A snapshot of an active instance taken right behind its record `k`, with any stretch
   of the log that ends in that record replayed on top, is the instance as the whole log up to there describes it.
   */
  lemma SnapshotCatchesUp(log: Log, p: nat, k: nat, id: string, snapped: Instance)
    requires p <= k < |log| && About(log[k].entry, id) && CreationsFirst(log)
    requires IsActive(FoldOne(None, log[..k + 1], id))
    requires var full := FoldOne(None, log[..k + 1], id).value;
             && snapped.id == full.id && snapped.machine == full.machine && snapped.version == full.version
             && snapped.state == full.state && snapped.ctx == full.ctx
             && snapped.lifecycle.Active? && snapped.lastEventId.None?
    ensures SameView(FoldOne(Some(snapped), log[p..k + 1], id), FoldOne(None, log[..k + 1], id))
  {
    hide FoldOne;
    var rec, upto, stretch := log[k], log[..k], log[p..k];
    assert log[..k + 1] == upto + [rec] && log[p..k + 1] == stretch + [rec];
    FoldOneLast(None, upto, rec, id);
    FoldOneLast(Some(snapped), stretch, rec, id);
    var before := FoldOne(None, upto, id);
    if rec.entry.CreateInstance? {
      assert forall j :: 0 <= j < |stretch| ==> stretch[j] == log[p + j];
      FoldOneUntouched(Some(snapped), stretch, id);
      FoldOneUntouched(None, upto, id);
    } else {
      NoDeletes(log, k, id);
      StretchDeletes(log, p, k, id);
      FoldOneLifecycle(Some(snapped), stretch, id);
    }
  }

  lemma FoldOneLast(start: Option<Instance>, log: Log, rec: LogRecord, id: string)
    ensures FoldOne(start, log + [rec], id) == StepOne(FoldOne(start, log, id), rec, id)
  {
    assert (log + [rec])[..|log|] == log;
  }

  /** Up to a point where the instance is active, nothing deleted it. */
  lemma {:induction false} NoDeletes(log: Log, k: nat, id: string)
    requires k < |log| && CreationsFirst(log) && IsActive(FoldOne(None, log[..k + 1], id))
    ensures !Deletes(log[..k + 1], id)
    decreases k
  {
    hide FoldOne;
    var rec := log[k];
    assert log[..k + 1] == log[..k] + [rec];
    FoldOneLast(None, log[..k], rec, id);
    DeletesLast(log[..k + 1], id);
    assert log[..k + 1][..k] == log[..k];
    if k > 0 && IsActive(FoldOne(None, log[..k], id)) {
      NoDeletes(log, k - 1, id);
    }
  }

  lemma StretchDeletes(log: Log, p: nat, k: nat, id: string)
    requires p <= k < |log|
    ensures Deletes(log[p..k], id) ==> Deletes(log[..k + 1], id)
  {
    if Deletes(log[p..k], id) {
      var j :| 0 <= j < |log[p..k]| && log[p..k][j].entry.DeleteInstance? && log[p..k][j].entry.instanceId == id;
      assert log[..k + 1][p + j] == log[p..k][j];
    }
  }

  // ---------------------------------------------------------------------------------------------------------------
  // Runs of calls and compactions
  // ---------------------------------------------------------------------------------------------------------------

  /**
   A compaction, or a request for the snapshot of one instance, under way. `store`: the snapshot store it works with.
   `left`: while it lists the instances, those it still has to visit. `pending`: clones of live instances not dealt
   with yet; `due`: which of them are due for a snapshot. `mark`: the largest offset when the listing ended. `target`:
   once it has computed it, the segment below which it deletes.
   */
  datatype Job = Job(
    request: bool, force: bool, store: nat, left: Option<set<string>>, pending: map<string, Instance>,
    due: set<string>, mark: nat, target: Option<nat>)

  /**
   `db.log` is everything ever written; the files hold its records from segment `floor` on. `db.es` has the tables as
   they are once the creations under way are done: `entering` are the instances whose creation is logged and which are
   not yet in the table. `snaps` is the index on disk; each store keeps an index of its own in memory, and writes all
   of it over the one on disk.
   */
  datatype Store = Store(
    db: Db, top: nat, floor: nat, entering: set<string>, snaps: map<string, Snapshot>,
    indexes: map<nat, map<string, Snapshot>>, jobs: map<nat, Job>)

  function Retained(s: Store): Log { FromSegment(s.db.log, s.floor) }

  function IndexOf(s: Store, store: nat): map<string, Snapshot> {
    if store in s.indexes then s.indexes[store] else map[]
  }

  /** The table of instances as others see it. */
  function Visible(s: Store): map<string, Instance> { s.db.es.instances - s.entering }

  /**
   An engine call, the two halves of a creation, or a step of job `j`; any number of jobs may be under way. An event or
   a deletion is one step: it has the lock of its instance from before its record is written until the table is
   updated, and who clones the instance waits for that lock. A compaction begins, visits the instances one by one, ends
   its listing, looks at each clone and saves those that are due, measures, deletes segments and ends; a request asks
   for an instance, saves it and ends.
   */
  datatype Action =
    | Operate(call: Call)
    | Start(call: Call)
    | Insert(id: string)
    | Begin(j: nat, force: bool, store: nat)
    | Visit(j: nat, id: string)
    | Listed(j: nat)
    | Ask(j: nat, store: nat, id: string)
    | Look(j: nat, id: string)
    | Save(j: nat, id: string, snapshotId: string)
    | Measure(j: nat, least: Option<nat>)
    | Drop(j: nat, floor: nat)
    | End(j: nat)

  /** What `get_all_instances` lets through. */
  function Live(instances: map<string, Instance>): map<string, Instance> {
    map id | id in instances && instances[id].lifecycle.Active? :: instances[id]
  }

  /** Whether the compaction loop snapshots an instance: forced, if it changed; otherwise, if it has no snapshot. */
  predicate Needs(force: bool, snaps: map<string, Snapshot>, i: Instance) {
    i.id !in snaps || (force && i.lastWalOffset > snaps[i.id].walOffset)
  }

  /** `min_wal_offset`. */
  ghost predicate IsLeast(snaps: map<string, Snapshot>, least: Option<nat>) {
    match least
    case None => snaps == map[]
    case Some(m) =>
      && (exists id :: id in snaps && snaps[id].walOffset == m)
      && forall id :: id in snaps ==> m <= snaps[id].walOffset
  }

  /**
   A call gets a new offset. A call on an instance that is entering is not a step of its own: unless it is a creation
   that overlaps the first, it fails and changes nothing.
   */
  predicate MayCall(s: Store, call: Call) {
    && (call.wal.Ok? ==> call.wal.value.1 > s.top)
    && (!call.op.Put? ==> call.op.id !in s.entering)
  }

  /**
   A listing visits every instance that was in the table when it began, and may or may not visit those that came in
   since. Files are deleted one at a time, so a deletion may stop anywhere up to its target.
   */
  ghost predicate Enabled(s: Store, a: Action) {
    match a
    case Operate(call) => MayCall(s, call)
    case Start(call) => MayCall(s, call) && call.op.Create?
    case Insert(id) => id in s.entering
    case Begin(j, _, _) => j !in s.jobs
    case Visit(j, id) => j in s.jobs && s.jobs[j].left.Some? && id in Visible(s) && id !in s.jobs[j].pending
    case Listed(j) => j in s.jobs && s.jobs[j].left == Some({})
    case Ask(j, _, id) => j !in s.jobs && id in Visible(s)
    case Look(j, id) => j in s.jobs && s.jobs[j].left.None? && id in s.jobs[j].pending && id !in s.jobs[j].due
    case Save(j, id, _) => j in s.jobs && s.jobs[j].left.None? && id in s.jobs[j].pending && id in s.jobs[j].due
    case Measure(j, least) =>
      && j in s.jobs && IsMeasuring(s.jobs[j]) && s.jobs[j].pending == map[]
      && IsLeast(IndexOf(s, s.jobs[j].store), least)
    case Drop(j, floor) => j in s.jobs && s.jobs[j].target.Some? && floor <= s.jobs[j].target.value
    case End(j) => j in s.jobs && (s.jobs[j].target.Some? || (s.jobs[j].request && s.jobs[j].pending == map[]))
  }

  /** A compaction that has listed the instances and has not yet computed how far it may delete. */
  predicate IsMeasuring(job: Job) { !job.request && job.left.None? && job.target.None? }

  function TargetOf(least: Option<nat>): nat { match least case None => 0 case Some(m) => SegmentOf(m) }

  function WithJob(s: Store, j: nat, job: Job): Store { s.(jobs := s.jobs[j := job]) }

  /** The engine's part of a call. */
  function Called(env: Env, s: Store, call: Call): Store
    requires MayCall(s, call)
  {
    var db := Exec(env, s.db, call).0;
    s.(db := db, top := if db.log == s.db.log then s.top else call.wal.value.1)
  }

  /** `create_snapshot`: into the index of the store, which then replaces the one on disk. */
  function Saved(s: Store, store: nat, id: string, snap: Snapshot): Store {
    var index := IndexOf(s, store)[id := snap];
    s.(snaps := index, indexes := s.indexes[store := index])
  }

  ghost function Next(env: Env, s: Store, a: Action): Store
    requires Enabled(s, a)
  {
    match a
    case Operate(call) => Called(env, s, call)
    case Start(call) =>
      var s' := Called(env, s, call);
      if s'.db.log == s.db.log then s' else s'.(entering := s'.entering + {call.op.id})
    case Insert(id) => s.(entering := s.entering - {id})
    case Begin(j, force, store) =>
      WithJob(s, j, Job(false, force, store, Some(Visible(s).Keys), map[], {}, 0, None))
    case Visit(j, id) =>
      var job, i := s.jobs[j], Visible(s)[id];
      WithJob(s, j, job.(left := Some(job.left.value - {id}),
                         pending := if i.lifecycle.Active? then job.pending[id := i] else job.pending))
    case Listed(j) => WithJob(s, j, s.jobs[j].(left := None, mark := s.top))
    case Ask(j, store, id) => WithJob(s, j, Job(true, true, store, None, map[id := Visible(s)[id]], {id}, 0, None))
    case Look(j, id) =>
      var job := s.jobs[j];
      WithJob(s, j, if Needs(job.force, IndexOf(s, job.store), job.pending[id]) then job.(due := job.due + {id})
                    else job.(pending := job.pending - {id}))
    case Save(j, id, snapshotId) =>
      var job := s.jobs[j];
      WithJob(Saved(s, job.store, id, FromInstance(job.pending[id], snapshotId)), j,
              job.(pending := job.pending - {id}, due := job.due - {id}))
    case Measure(j, least) => WithJob(s, j, s.jobs[j].(target := Some(TargetOf(least))))
    case Drop(_, floor) => s.(floor := Max(s.floor, floor))
    case End(j) => s.(jobs := s.jobs - {j})
  }

  // What a run must keep for recovery to be right.

  /** When a compaction computes how far it may delete, no other job still has clones in hand. */
  ghost predicate Alone(s: Store, a: Action) {
    a.Measure? ==> forall j :: j in s.jobs && j != a.j ==> s.jobs[j].pending == map[]
  }

  /** No creation is under way when a compaction begins, and none begins before it has listed the instances. */
  ghost predicate ListsUndisturbed(s: Store, a: Action) {
    && (a.Begin? ==> s.entering == {})
    && ((a.Operate? || a.Start?) && a.call.op.Create? ==> forall j :: j in s.jobs ==> s.jobs[j].left.None?)
  }

  /** All jobs work with one store. */
  predicate OneStore(a: Action) { (a.Begin? || a.Ask?) ==> a.store == 0 }

  /**
   Requests ask for live instances, and save none while a compaction has listed the instances and not yet computed how
   far it may delete.
   */
  ghost predicate RequestsWait(s: Store, a: Action) {
    && (a.Ask? && a.id in Visible(s) ==> Visible(s)[a.id].lifecycle.Active?)
    && (a.Save? && a.j in s.jobs && s.jobs[a.j].request ==> !SomeMeasuring(s))
  }

  ghost predicate SomeMeasuring(s: Store) { exists j :: j in s.jobs && IsMeasuring(s.jobs[j]) }

  ghost predicate Careful(s: Store, a: Action) {
    Alone(s, a) && ListsUndisturbed(s, a) && OneStore(a) && RequestsWait(s, a)
  }

  // ---------------------------------------------------------------------------------------------------------------
  // Invariant
  // ---------------------------------------------------------------------------------------------------------------

  ghost predicate OffsetsUpTo(log: Log, top: nat) {
    && (forall k :: 0 <= k < |log| ==> log[k].offset <= top)
    && (forall j, k :: 0 <= j < k < |log| ==> log[j].offset < log[k].offset)
  }

  /** The live tables are what each instance's records say, offsets and event ids included. */
  ghost predicate LiveIsFold(instances: map<string, Instance>, log: Log) {
    forall id :: At(instances, id) == FoldOne(None, log, id)
  }

  ghost predicate AllAbove(log: Log, floor: nat, id: string) {
    forall k :: 0 <= k < |log| && About(log[k].entry, id) ==> SegmentOf(log[k].offset) >= floor
  }

  ghost predicate AllBehind(log: Log, mark: nat, id: string) {
    forall k :: 0 <= k < |log| && About(log[k].entry, id) ==> log[k].offset > mark
  }

  /** The instance as it was, active, right behind a record of its own. */
  ghost predicate TakenAt(log: Log, id: string, i: Instance, k: nat) {
    && k < |log| && About(log[k].entry, id) && log[k].offset == i.lastWalOffset
    && FoldOne(None, log[..k + 1], id) == Some(i) && i.lifecycle.Active? && i.id == id
  }

  /** Instance values that a snapshot can be taken of. */
  ghost predicate Snappable(log: Log, id: string, i: Instance) {
    exists k :: TakenAt(log, id, i, k)
  }

  ghost predicate SnapOk(log: Log, id: string, snap: Snapshot) {
    exists i :: Snappable(log, id, i) && snap == FromInstance(i, snap.snapshotId)
  }

  ghost predicate SnapsOk(s: Store) {
    forall id :: id in s.snaps ==> SnapOk(s.db.log, id, s.snaps[id])
  }

  /** Live, and without a snapshot. */
  ghost predicate Bare(s: Store, id: string) {
    IsActive(At(s.db.es.instances, id)) && id !in s.snaps
  }

  ghost predicate PendingSomewhere(s: Store, id: string) {
    exists j :: j in s.jobs && id in s.jobs[j].pending
  }

  /** The segments below `floor` can go: no snapshot, no clone and no bare instance needs them. */
  ghost predicate Safe(s: Store, floor: nat) {
    && floor <= SegmentOf(s.top)
    && (forall id :: id in s.snaps ==> SegmentOf(s.snaps[id].walOffset) >= floor)
    && (forall id :: Bare(s, id) ==> AllAbove(s.db.log, floor, id))
    && (forall j, id :: j in s.jobs && id in s.jobs[j].pending ==>
          SegmentOf(s.jobs[j].pending[id].lastWalOffset) >= floor)
  }

  ghost predicate JobOk(s: Store, j: nat)
    requires j in s.jobs
  {
    var job := s.jobs[j];
    && job.store == 0 && IndexOf(s, 0) == s.snaps
    && (forall id :: id in job.pending ==>
          Snappable(s.db.log, id, job.pending[id]) && job.pending[id].lastWalOffset <= s.top)
    && (job.left.Some? ==> !job.request && forall id :: Bare(s, id) && id !in job.pending ==> id in job.left.value)
    && (!job.request && job.left.None? ==> KnowsAll(s, job))
    && (job.target.Some? ==>
          !job.request && job.left.None? && job.pending == map[] && Safe(s, job.target.value))
  }

  /** A compaction that has listed the instances: what is bare and it has no clone of came after its listing. */
  ghost predicate KnowsAll(s: Store, job: Job) {
    && job.mark <= s.top
    && (forall id :: id in job.pending ==> job.pending[id].lastWalOffset <= job.mark)
    && (forall id :: Bare(s, id) && id !in job.pending ==> AllBehind(s.db.log, job.mark, id))
  }

  /**
   While a compaction is between its listing and its measuring: what is bare and no job knows of came after every
   snapshot.
   */
  ghost predicate NewcomersOk(s: Store) {
    SomeMeasuring(s) ==>
      forall id, x :: Bare(s, id) && !PendingSomewhere(s, id) && x in s.snaps ==>
        AllBehind(s.db.log, s.snaps[x].walOffset, id)
  }

  ghost predicate JobsOk(s: Store) { IndexOf(s, 0) == s.snaps && forall j :: j in s.jobs ==> JobOk(s, j) }

  ghost predicate StoreInv(env: Env, s: Store) {
    && DbInv(env, s.db) && CreationsFirst(s.db.log) && OffsetsUpTo(s.db.log, s.top)
    && LiveIsFold(s.db.es.instances, s.db.log)
    && SnapsOk(s) && Safe(s, s.floor) && JobsOk(s) && NewcomersOk(s)
  }

  // ---------------------------------------------------------------------------------------------------------------
  // Recovery agrees with the live engine
  // ---------------------------------------------------------------------------------------------------------------

  /** The retained records are a suffix of the log, and hold every record from segment `floor` on. */
  lemma {:induction false} RetainedIsSuffix(log: Log, floor: nat, top: nat) returns (p: nat)
    requires OffsetsUpTo(log, top)
    ensures p <= |log| && FromSegment(log, floor) == log[p..]
    ensures forall k :: 0 <= k < |log| ==> (SegmentOf(log[k].offset) >= floor <==> k >= p)
  {
    hide SegmentOf;
    if log == [] {
      return 0;
    }
    var before, last := log[..|log| - 1], log[|log| - 1];
    p := RetainedIsSuffix(before, floor, top);
    assert forall k :: 0 <= k < |before| ==> before[k] == log[k];
    if SegmentOf(last.offset) < floor {
      SegmentsIncrease(log);
      assert before[p..] == [];
      p := |log|;
    } else {
      assert before[p..] + [last] == log[p..];
    }
  }

  lemma SegmentsIncrease(log: Log)
    requires forall j, k :: 0 <= j < k < |log| ==> log[j].offset < log[k].offset
    ensures forall j, k :: 0 <= j < k < |log| ==> SegmentOf(log[j].offset) <= SegmentOf(log[k].offset)
  {
  }

  /** A snapshot with the retained records on top is the instance that all records describe. */
  lemma SnapshotRecovers(s: Store, p: nat, id: string)
    requires CreationsFirst(s.db.log) && p <= |s.db.log| && id in s.snaps
    requires SnapOk(s.db.log, id, s.snaps[id]) && SegmentOf(s.snaps[id].walOffset) >= s.floor
    requires forall k :: 0 <= k < |s.db.log| ==> (SegmentOf(s.db.log[k].offset) >= s.floor <==> k >= p)
    ensures SameView(FoldOne(Some(ToInstance(s.snaps[id])), s.db.log[p..], id), FoldOne(None, s.db.log, id))
  {
    hide FoldOne, SameView;
    var log, snap := s.db.log, s.snaps[id];
    var i :| Snappable(log, id, i) && snap == FromInstance(i, snap.snapshotId);
    var k :| TakenAt(log, id, i, k);
    SnapshotFollows(log, p, k, id, i, ToInstance(snap));
  }

  lemma SnapshotFollows(log: Log, p: nat, k: nat, id: string, i: Instance, snapped: Instance)
    requires p <= k < |log| && About(log[k].entry, id) && CreationsFirst(log)
    requires FoldOne(None, log[..k + 1], id) == Some(i) && i.lifecycle.Active?
    requires snapped == i.(lastEventId := None)
    ensures SameView(FoldOne(Some(snapped), log[p..], id), FoldOne(None, log, id))
  {
    hide FoldOne, SameView, CreationsFirst, About;
    SnapshotCatchesUp(log, p, k, id, snapped);
    assert log[p..] == log[p..k + 1] + log[k + 1..] && log == log[..k + 1] + log[k + 1..];
    FoldOneConcat(Some(snapped), log[p..k + 1], log[k + 1..], id);
    FoldOneConcat(None, log[..k + 1], log[k + 1..], id);
    FoldOneSame(FoldOne(Some(snapped), log[p..k + 1], id), FoldOne(None, log[..k + 1], id), log[k + 1..], id);
  }

  /** Without a snapshot: if the instance comes back at all, its whole history was retained. */
  lemma HistoryRecovers(log: Log, p: nat, id: string)
    requires CreationsFirst(log) && p <= |log|
    ensures FoldOne(None, log[p..], id).Some? ==> FoldOne(None, log[p..], id) == FoldOne(None, log, id)
    ensures (forall k :: 0 <= k < p ==> !About(log[k].entry, id)) ==>
              FoldOne(None, log[p..], id) == FoldOne(None, log, id)
  {
    hide FoldOne;
    assert log == log[..p] + log[p..];
    FoldOneConcat(None, log[..p], log[p..], id);
    if FoldOne(None, log[p..], id).Some? {
      var k := CreatedIn(log[p..], id);
      assert log[p..][k] == log[p + k];
      FoldOneUntouched(None, log[..p], id);
    } else if forall k :: 0 <= k < p ==> !About(log[k].entry, id) {
      FoldOneUntouched(None, log[..p], id);
    }
  }

  /** What exists was created. */
  lemma {:induction false} CreatedIn(log: Log, id: string) returns (k: nat)
    requires FoldOne(None, log, id).Some?
    ensures k < |log| && CreatesId(log[k].entry, id)
  {
    var before := log[..|log| - 1];
    if FoldOne(None, before, id).Some? {
      k := CreatedIn(before, id);
      assert before[k] == log[k];
    } else {
      k := |log| - 1;
    }
  }

  /**
   What recovery promises of each instance: a live one comes back with the same machine, version, state, context,
   last event id and lifecycle, and nothing that is not live comes back as live.
   */
  ghost predicate RecoversAs(recovered: Option<Instance>, live: Option<Instance>) {
    && (IsActive(live) ==> SameView(recovered, live))
    && (IsActive(recovered) ==> IsActive(live))
  }

  /** Compaction preserves meaning, in every state that the invariant allows. */
  lemma RecoveryAgrees(env: Env, s: Store, id: string)
    requires StoreInv(env, s)
    ensures RecoversAs(At(Recover(s.snaps, Retained(s)), id), At(s.db.es.instances, id))
  {
    hide FoldOne, StoreFold, DbInv, FromSegment, JobsOk, NewcomersOk;
    var log := s.db.log;
    var p := RetainedIsSuffix(log, s.floor, s.top);
    var start := map id | id in s.snaps :: ToInstance(s.snaps[id]);
    StoreFoldIsFoldOne(start, log[p..], id);
    assert At(s.db.es.instances, id) == FoldOne(None, log, id);
    if id in s.snaps {
      SnapshotRecovers(s, p, id);
    } else {
      HistoryRecovers(log, p, id);
      if IsActive(At(s.db.es.instances, id)) {
        assert AllAbove(log, s.floor, id);
      }
    }
  }

  // ---------------------------------------------------------------------------------------------------------------
  // Every step keeps the invariant
  // ---------------------------------------------------------------------------------------------------------------

  /** An instance with a record in the log is in the tables. */
  lemma {:induction false} RecordedExists(env: Env, log: Log, j: nat, id: string)
    requires LogOk(env, log) && j < |log| && About(log[j].entry, id)
    ensures id in Replay(env, log).instances
  {
    hide FromJson, AdmissibleApply;
    var before := log[..|log| - 1];
    if j < |log| - 1 {
      assert before[j] == log[j];
      RecordedExists(env, before, j, id);
    }
  }

  /** Where a creation is admissible, the instance has no record yet. */
  lemma FreshHasNoRecords(env: Env, db: Db, id: string)
    requires DbInv(env, db) && id !in db.es.instances
    ensures forall j :: 0 <= j < |db.log| ==> !About(db.log[j].entry, id)
  {
    hide Replay, LogOk;
    forall j | 0 <= j < |db.log| ensures !About(db.log[j].entry, id) {
      if About(db.log[j].entry, id) {
        RecordedExists(env, db.log, j, id);
      }
    }
  }

  lemma CreationsFirstLast(env: Env, db: Db, rec: LogRecord)
    requires DbInv(env, db) && CreationsFirst(db.log) && Admissible(env, db.es, rec.entry)
    ensures CreationsFirst(db.log + [rec])
  {
    hide DbInv, FromJson;
    if rec.entry.CreateInstance? {
      FreshHasNoRecords(env, db, rec.entry.instanceId);
    }
  }

  /** One committed record, seen by one instance. */
  lemma CommitIsStep(env: Env, es: EngineState, rec: LogRecord, id: string)
    requires Admissible(env, es, rec.entry)
    ensures At(Commit(env, es, rec).instances, id) == StepOne(At(es.instances, id), rec, id)
  {
    hide FromJson, AdmissibleApply;
  }

  lemma LiveIsFoldLast(env: Env, db: Db, rec: LogRecord)
    requires LiveIsFold(db.es.instances, db.log) && Admissible(env, db.es, rec.entry)
    ensures LiveIsFold(Commit(env, db.es, rec).instances, db.log + [rec])
  {
    hide Commit, FoldOne, StepOne, Admissible;
    forall id ensures At(Commit(env, db.es, rec).instances, id) == FoldOne(None, db.log + [rec], id) {
      CommitIsStep(env, db.es, rec, id);
      FoldOneLast(None, db.log, rec, id);
    }
  }

  lemma SnappableStays(log: Log, rec: LogRecord, id: string, i: Instance)
    requires Snappable(log, id, i)
    ensures Snappable(log + [rec], id, i)
  {
    hide FoldOne;
    var k :| TakenAt(log, id, i, k);
    assert (log + [rec])[..k + 1] == log[..k + 1];
    assert TakenAt(log + [rec], id, i, k);
  }

  lemma SnapOkStays(log: Log, rec: LogRecord, id: string, snap: Snapshot)
    requires SnapOk(log, id, snap)
    ensures SnapOk(log + [rec], id, snap)
  {
    hide Snappable;
    var i :| Snappable(log, id, i) && snap == FromInstance(i, snap.snapshotId);
    SnappableStays(log, rec, id, i);
  }

  /** An instance becomes active only by its creation. */
  lemma ActiveBefore(env: Env, es: EngineState, rec: LogRecord, id: string)
    requires Admissible(env, es, rec.entry) && IsActive(At(Commit(env, es, rec).instances, id))
    ensures IsActive(At(es.instances, id)) || (CreatesId(rec.entry, id) && id !in es.instances)
  {
    hide Commit, AdmissibleApply;
    CommitIsStep(env, es, rec, id);
  }

  /** The state after a call wrote `rec`. */
  function AfterRecord(env: Env, s: Store, rec: LogRecord): Store {
    s.(db := Db(Commit(env, s.db.es, rec), s.db.log + [rec]), top := rec.offset)
  }

  ghost predicate MayRecord(env: Env, s: Store, rec: LogRecord) {
    && DbInv(env, s.db) && Admissible(env, s.db.es, rec.entry)
    && OffsetsUpTo(s.db.log, s.top) && rec.offset > s.top
  }

  /** What is bare after a record was bare before it, or has no other record. */
  lemma BareBefore(env: Env, s: Store, rec: LogRecord, id: string)
    requires MayRecord(env, s, rec) && Bare(AfterRecord(env, s, rec), id)
    ensures Bare(s, id) || forall k :: 0 <= k < |s.db.log| ==> !About(s.db.log[k].entry, id)
  {
    hide Commit, DbInv, Admissible;
    ActiveBefore(env, s.db.es, rec, id);
    if id !in s.db.es.instances {
      FreshHasNoRecords(env, s.db, id);
    }
  }

  lemma RecordKeepsAbove(env: Env, s: Store, rec: LogRecord, floor: nat, id: string)
    requires MayRecord(env, s, rec) && Bare(AfterRecord(env, s, rec), id) && floor <= SegmentOf(s.top)
    requires Bare(s, id) ==> AllAbove(s.db.log, floor, id)
    ensures AllAbove(s.db.log + [rec], floor, id)
  {
    hide Commit, DbInv, Admissible, About;
    BareBefore(env, s, rec, id);
  }

  lemma RecordKeepsBehind(env: Env, s: Store, rec: LogRecord, mark: nat, id: string)
    requires MayRecord(env, s, rec) && Bare(AfterRecord(env, s, rec), id) && mark <= s.top
    requires Bare(s, id) ==> AllBehind(s.db.log, mark, id)
    ensures AllBehind(s.db.log + [rec], mark, id)
  {
    hide Commit, DbInv, Admissible, About;
    BareBefore(env, s, rec, id);
  }

  lemma RecordKeepsSafe(env: Env, s: Store, rec: LogRecord, floor: nat)
    requires MayRecord(env, s, rec) && Safe(s, floor)
    ensures Safe(AfterRecord(env, s, rec), floor)
  {
    hide Commit, MayRecord, AllAbove, Bare;
    RecordRaisesTop(env, s, rec);
    var s' := AfterRecord(env, s, rec);
    forall id | Bare(s', id) ensures AllAbove(s'.db.log, floor, id) {
      RecordKeepsAbove(env, s, rec, floor, id);
    }
  }

  lemma RecordRaisesTop(env: Env, s: Store, rec: LogRecord)
    requires MayRecord(env, s, rec)
    ensures s.top < rec.offset && SegmentOf(s.top) <= SegmentOf(rec.offset)
  {
    hide DbInv, Admissible;
  }

  /** A record of a run that leaves listings undisturbed. */
  ghost predicate Undisturbing(s: Store, rec: LogRecord) {
    rec.entry.CreateInstance? ==> forall j :: j in s.jobs ==> s.jobs[j].left.None?
  }

  lemma RecordKeepsKnown(env: Env, s: Store, rec: LogRecord, job: Job)
    requires MayRecord(env, s, rec) && KnowsAll(s, job)
    ensures KnowsAll(AfterRecord(env, s, rec), job)
  {
    hide Commit, MayRecord, AllBehind, Bare;
    RecordRaisesTop(env, s, rec);
    var s' := AfterRecord(env, s, rec);
    forall id | Bare(s', id) && id !in job.pending ensures AllBehind(s'.db.log, job.mark, id) {
      RecordKeepsBehind(env, s, rec, job.mark, id);
    }
  }

  lemma RecordBares(env: Env, s: Store, rec: LogRecord, id: string)
    requires MayRecord(env, s, rec) && Bare(AfterRecord(env, s, rec), id) && !rec.entry.CreateInstance?
    ensures Bare(s, id)
  {
    hide Commit, DbInv, Admissible;
    ActiveBefore(env, s.db.es, rec, id);
  }

  lemma RecordKeepsJob(env: Env, s: Store, rec: LogRecord, j: nat)
    requires MayRecord(env, s, rec) && j in s.jobs && JobOk(s, j) && Undisturbing(s, rec)
    ensures JobOk(AfterRecord(env, s, rec), j)
  {
    hide Commit, MayRecord, Bare, Snappable, Safe, KnowsAll;
    RecordRaisesTop(env, s, rec);
    var s', job := AfterRecord(env, s, rec), s.jobs[j];
    forall id | id in job.pending ensures Snappable(s'.db.log, id, job.pending[id]) {
      SnappableStays(s.db.log, rec, id, job.pending[id]);
    }
    if job.left.Some? {
      forall id | Bare(s', id) && id !in job.pending ensures id in job.left.value { RecordBares(env, s, rec, id); }
    } else if !job.request {
      RecordKeepsKnown(env, s, rec, job);
    }
    if job.target.Some? {
      RecordKeepsSafe(env, s, rec, job.target.value);
    }
  }

  lemma RecordKeepsNewcomers(env: Env, s: Store, rec: LogRecord)
    requires MayRecord(env, s, rec) && SnapsOk(s) && NewcomersOk(s)
    ensures NewcomersOk(AfterRecord(env, s, rec))
  {
    hide Commit, AllBehind, Bare, SnapsOk, DbInv, Admissible, PendingSomewhere, OffsetsUpTo;
    var s' := AfterRecord(env, s, rec);
    if SomeMeasuring(s') {
      assert SomeMeasuring(s);
      forall id, x | Bare(s', id) && !PendingSomewhere(s', id) && x in s'.snaps
        ensures AllBehind(s'.db.log, s'.snaps[x].walOffset, id)
      {
        SnapBelowTop(s, x);
        SamePending(s, s', id);
        RecordKeepsBehind(env, s, rec, s.snaps[x].walOffset, id);
      }
    }
  }

  lemma SamePending(s: Store, s': Store, id: string)
    requires s.jobs == s'.jobs
    ensures PendingSomewhere(s, id) <==> PendingSomewhere(s', id)
  {
  }

  lemma RecordKeeps(env: Env, s: Store, rec: LogRecord)
    requires StoreInv(env, s) && MayRecord(env, s, rec) && DbInv(env, AfterRecord(env, s, rec).db)
    requires Undisturbing(s, rec)
    ensures StoreInv(env, AfterRecord(env, s, rec))
  {
    hide Commit, DbInv, Admissible, LiveIsFold, Safe, JobOk, CreationsFirst, SnapOk, NewcomersOk, MayRecord;
    var s' := AfterRecord(env, s, rec);
    RecordKeepsCreations(env, s, rec);
    RecordKeepsFold(env, s, rec);
    RecordKeepsSafe(env, s, rec, s.floor);
    RecordKeepsNewcomers(env, s, rec);
    forall j | j in s'.jobs ensures JobOk(s', j) { RecordKeepsJob(env, s, rec, j); }
    forall id | id in s.snaps ensures SnapOk(s'.db.log, id, s.snaps[id]) {
      SnapOkStays(s.db.log, rec, id, s.snaps[id]);
    }
    RecordRaisesTop(env, s, rec);
  }

  lemma RecordKeepsCreations(env: Env, s: Store, rec: LogRecord)
    requires MayRecord(env, s, rec) && CreationsFirst(s.db.log)
    ensures CreationsFirst(s.db.log + [rec])
  {
    hide DbInv, Admissible, CreationsFirst;
    CreationsFirstLast(env, s.db, rec);
  }

  lemma RecordKeepsFold(env: Env, s: Store, rec: LogRecord)
    requires MayRecord(env, s, rec) && LiveIsFold(s.db.es.instances, s.db.log)
    ensures LiveIsFold(Commit(env, s.db.es, rec).instances, s.db.log + [rec])
  {
    hide DbInv, Admissible, LiveIsFold, Commit;
    LiveIsFoldLast(env, s.db, rec);
  }

  lemma CallKeeps(env: Env, s: Store, call: Call)
    requires StoreInv(env, s) && MayCall(s, call)
    requires call.op.Create? ==> forall j :: j in s.jobs ==> s.jobs[j].left.None?
    ensures StoreInv(env, Called(env, s, call))
  {
    hide StoreInv, DbInv, Decide, Commit, Admissible;
    InvParts(env, s);
    ExecKeepsInv(env, s.db, call);
    var d := Decide(env, s.db.es, call.op);
    if d.Log? && call.wal.Ok? {
      var rec := LogRecord(call.wal.value.0, call.wal.value.1, d.entry);
      DecideAdmissible(env, s.db.es, call.op);
      OnlyCreationsCreate(env, s.db.es, call.op);
      RecordKeeps(env, s, rec);
      assert |s.db.log + [rec]| != |s.db.log|;
      assert Called(env, s, call) == AfterRecord(env, s, rec);
    } else {
      assert Called(env, s, call) == s;
    }
  }

  lemma OnlyCreationsCreate(env: Env, es: EngineState, op: Op)
    ensures Decide(env, es, op).Log? && Decide(env, es, op).entry.CreateInstance? ==> op.Create?
  {
    hide FromJson;
  }

  /** The invariant does not speak of the creations under way. */
  lemma EnteringIsFree(env: Env, s: Store, entering: set<string>)
    requires StoreInv(env, s)
    ensures StoreInv(env, s.(entering := entering))
  {
    hide DbInv, LiveIsFold, CreationsFirst, SnapOk, OffsetsUpTo, Snappable, AllBehind, AllAbove;
    var s' := s.(entering := entering);
    SameBare(s, s');
    SameSafe(s, s', s.floor);
    forall j | j in s'.jobs ensures JobOk(s', j) {
      assert JobOk(s, j);
      if s.jobs[j].target.Some? {
        SameSafe(s, s', s.jobs[j].target.value);
      }
    }
    assert SomeMeasuring(s') <==> SomeMeasuring(s);
    forall id ensures PendingSomewhere(s, id) <==> PendingSomewhere(s', id) { SamePending(s, s', id); }
  }

  lemma SameSafe(s: Store, s': Store, floor: nat)
    requires SameDb(s, s') && s'.snaps == s.snaps && s'.jobs == s.jobs && Safe(s, floor)
    ensures Safe(s', floor)
  {
    hide AllAbove;
    SameBare(s, s');
  }

  lemma EngineKeeps(env: Env, s: Store, a: Action)
    requires StoreInv(env, s) && (a.Operate? || a.Start? || a.Insert?) && Enabled(s, a) && ListsUndisturbed(s, a)
    ensures StoreInv(env, Next(env, s, a))
  {
    hide StoreInv, Exec;
    if a.Insert? {
      EnteringIsFree(env, s, s.entering - {a.id});
    } else {
      CallKeeps(env, s, a.call);
      if a.Start? {
        var s' := Called(env, s, a.call);
        EnteringIsFree(env, s', s'.entering + {a.call.op.id});
      }
    }
  }

  lemma InvParts(env: Env, s: Store)
    requires StoreInv(env, s)
    ensures DbInv(env, s.db) && CreationsFirst(s.db.log) && OffsetsUpTo(s.db.log, s.top)
    ensures LiveIsFold(s.db.es.instances, s.db.log) && SnapsOk(s) && Safe(s, s.floor) && JobsOk(s) && NewcomersOk(s)
    ensures s.floor <= SegmentOf(s.top)
  {
  }

  /** The last record of an instance carries its offset. */
  lemma {:induction false} LastRecord(log: Log, id: string, i: Instance) returns (k: nat)
    requires CreationsFirst(log) && FoldOne(None, log, id) == Some(i) && i.lifecycle.Active?
    ensures k < |log| && About(log[k].entry, id) && log[k].offset == i.lastWalOffset && i.id == id
    ensures FoldOne(None, log[..k + 1], id) == Some(i)
    ensures forall j :: k < j < |log| ==> !About(log[j].entry, id)
  {
    var before, rec := log[..|log| - 1], log[|log| - 1];
    if About(rec.entry, id) {
      k := |log| - 1;
      assert log[..k + 1] == log;
      FoldOneId(log, id);
      if rec.entry.CreateInstance? {
        FoldOneUntouched(None, before, id);
      }
    } else {
      k := LastRecord(before, id, i);
      assert before[..k + 1] == log[..k + 1] && before[k] == log[k];
    }
  }

  lemma {:induction false} FoldOneId(log: Log, id: string)
    ensures FoldOne(None, log, id).Some? ==> FoldOne(None, log, id).value.id == id
  {
    if log == [] {
    } else {
      FoldOneId(log[..|log| - 1], id);
    }
  }

  /** A live instance can be snapshotted, and its last record is in no segment that can go. */
  lemma LiveIsSnappable(env: Env, s: Store, id: string) returns (k: nat)
    requires StoreInv(env, s) && id in Live(s.db.es.instances)
    ensures var i := s.db.es.instances[id];
            && k < |s.db.log| && TakenAt(s.db.log, id, i, k) && Snappable(s.db.log, id, i) && i.lastWalOffset <= s.top
            && forall j :: k < j < |s.db.log| ==> !About(s.db.log[j].entry, id)
  {
    hide FoldOne, DbInv, JobsOk, SnapsOk, Safe, NewcomersOk;
    var log, i := s.db.log, s.db.es.instances[id];
    assert At(s.db.es.instances, id) == FoldOne(None, log, id);
    k := LastRecord(log, id, i);
    assert TakenAt(log, id, i, k);
  }

  /** A snapshot that is not behind its live instance shows the instance as it is. */
  lemma NewestIsExact(env: Env, s: Store, id: string)
    requires StoreInv(env, s) && id in Live(s.db.es.instances) && id in s.snaps
    requires s.snaps[id].walOffset >= s.db.es.instances[id].lastWalOffset
    ensures s.snaps[id] == FromInstance(s.db.es.instances[id], s.snaps[id].snapshotId)
  {
    hide FoldOne, DbInv, JobsOk, NewcomersOk, LiveIsFold, CreationsFirst, Safe;
    var log, i := s.db.log, s.db.es.instances[id];
    var k := LiveIsSnappable(env, s, id);
    assert SnapOk(log, id, s.snaps[id]);
    var i' :| Snappable(log, id, i') && s.snaps[id] == FromInstance(i', s.snaps[id].snapshotId);
    var k' :| TakenAt(log, id, i', k');
    assert k' == k;
  }

  lemma LiveIsAbove(env: Env, s: Store, floor: nat, id: string)
    requires StoreInv(env, s) && Safe(s, floor) && id in Live(s.db.es.instances)
    ensures SegmentOf(s.db.es.instances[id].lastWalOffset) >= floor
  {
    hide FoldOne, DbInv, JobsOk, NewcomersOk, LiveIsFold, CreationsFirst;
    var log := s.db.log;
    var k := LiveIsSnappable(env, s, id);
    if id in s.snaps {
      assert SnapOk(log, id, s.snaps[id]);
      var i' :| Snappable(log, id, i') && s.snaps[id] == FromInstance(i', s.snaps[id].snapshotId);
      var k' :| TakenAt(log, id, i', k');
      assert k' <= k;
      SegmentsIncrease(log);
    } else {
      assert Bare(s, id) && AllAbove(log, floor, id);
    }
  }

  lemma SnapBelowTop(s: Store, id: string)
    requires SnapsOk(s) && OffsetsUpTo(s.db.log, s.top) && id in s.snaps
    ensures s.snaps[id].walOffset <= s.top
  {
    hide FoldOne;
    var log := s.db.log;
    assert SnapOk(log, id, s.snaps[id]);
    var i :| Snappable(log, id, i) && s.snaps[id] == FromInstance(i, s.snaps[id].snapshotId);
    var k :| TakenAt(log, id, i, k);
  }

  lemma SnappableId(log: Log, id: string, i: Instance)
    requires Snappable(log, id, i)
    ensures i.id == id
  {
  }

  /** The steps of a compaction change neither the log nor the tables. */
  ghost predicate SameDb(s: Store, s': Store) { s'.db == s.db && s'.top == s.top }

  lemma SameBare(s: Store, s': Store)
    requires s'.db == s.db && s'.snaps == s.snaps
    ensures forall id :: Bare(s', id) <==> Bare(s, id)
  {
  }

  // Jobs take clones: they begin, visit instances, end their listing, ask for one.

  /** Job `j` keeps the clones it had, if any, and every other one it has is of a live instance, as it is now. */
  ghost predicate Takes(s: Store, s': Store, j: nat) {
    && SameDb(s, s') && s'.snaps == s.snaps && s'.indexes == s.indexes && s'.floor == s.floor
    && j in s'.jobs && s'.jobs == s.jobs[j := s'.jobs[j]]
    && (j in s.jobs ==> forall id :: id in s.jobs[j].pending ==> id in s'.jobs[j].pending)
    && (forall id :: id in s'.jobs[j].pending ==>
          || (j in s.jobs && id in s.jobs[j].pending && s'.jobs[j].pending[id] == s.jobs[j].pending[id])
          || (id in Live(s.db.es.instances) && s'.jobs[j].pending[id] == s.db.es.instances[id]))
  }

  lemma TakesSafe(env: Env, s: Store, s': Store, j: nat, floor: nat)
    requires StoreInv(env, s) && Takes(s, s', j) && Safe(s, floor)
    ensures Safe(s', floor)
  {
    hide StoreInv, AllAbove, Live;
    SameBare(s, s');
    forall i, id | i in s'.jobs && id in s'.jobs[i].pending
      ensures SegmentOf(s'.jobs[i].pending[id].lastWalOffset) >= floor
    {
      if i == j && !(j in s.jobs && id in s.jobs[j].pending && s'.jobs[j].pending[id] == s.jobs[j].pending[id]) {
        LiveIsAbove(env, s, floor, id);
      }
    }
  }

  lemma TakesOther(env: Env, s: Store, s': Store, j: nat, i: nat)
    requires StoreInv(env, s) && Takes(s, s', j) && i in s.jobs && i != j
    ensures JobOk(s', i)
  {
    hide DbInv, LiveIsFold, CreationsFirst, SnapsOk, NewcomersOk, Safe, OffsetsUpTo, Snappable, AllBehind, Live;
    assert JobOk(s, i) && s'.jobs[i] == s.jobs[i];
    if s.jobs[i].target.Some? {
      TakesSafe(env, s, s', j, s.jobs[i].target.value);
    }
    SameBare(s, s');
  }

  /** The clones of job `j` can be snapshotted. */
  lemma TakesClones(env: Env, s: Store, s': Store, j: nat)
    requires StoreInv(env, s) && Takes(s, s', j)
    ensures forall id :: id in s'.jobs[j].pending ==>
              Snappable(s'.db.log, id, s'.jobs[j].pending[id]) && s'.jobs[j].pending[id].lastWalOffset <= s'.top
  {
    hide DbInv, LiveIsFold, CreationsFirst, SnapsOk, NewcomersOk, Safe, OffsetsUpTo, Snappable, KnowsAll, Live;
    var job := s'.jobs[j];
    forall id | id in job.pending
      ensures Snappable(s.db.log, id, job.pending[id]) && job.pending[id].lastWalOffset <= s.top
    {
      if j in s.jobs && id in s.jobs[j].pending && job.pending[id] == s.jobs[j].pending[id] {
        assert JobOk(s, j);
      } else {
        var _ := LiveIsSnappable(env, s, id);
      }
    }
  }

  lemma TakesNewcomers(s: Store, s': Store, j: nat)
    requires NewcomersOk(s) && Takes(s, s', j)
    requires SomeMeasuring(s) || !IsMeasuring(s'.jobs[j]) || forall id :: Bare(s, id) ==> id in s'.jobs[j].pending
    ensures NewcomersOk(s')
  {
    hide AllBehind, Live;
    SameBare(s, s');
    if SomeMeasuring(s') {
      forall id, x | Bare(s', id) && !PendingSomewhere(s', id) && x in s'.snaps
        ensures AllBehind(s'.db.log, s'.snaps[x].walOffset, id)
      {
        assert id !in s'.jobs[j].pending;
        forall i | i in s.jobs ensures id !in s.jobs[i].pending {
          assert i in s'.jobs && id !in s'.jobs[i].pending;
        }
        assert !PendingSomewhere(s, id);
        MeasuringBefore(s, s', j);
      }
    }
  }

  lemma MeasuringBefore(s: Store, s': Store, j: nat)
    requires Takes(s, s', j) && SomeMeasuring(s')
    ensures SomeMeasuring(s) || IsMeasuring(s'.jobs[j])
  {
    hide Live;
    var i :| i in s'.jobs && IsMeasuring(s'.jobs[i]);
    assert i != j ==> i in s.jobs && s.jobs[i] == s'.jobs[i];
  }

  lemma TakesKeeps(env: Env, s: Store, s': Store, j: nat)
    requires StoreInv(env, s) && Takes(s, s', j) && NewcomersOk(s') && JobOk(s', j)
    ensures StoreInv(env, s')
  {
    InvParts(env, s);
    TakesSafe(env, s, s', j, s.floor);
    hide DbInv, LiveIsFold, CreationsFirst, JobOk, Safe, NewcomersOk, SnapOk, OffsetsUpTo, Live;
    forall i | i in s'.jobs ensures JobOk(s', i) {
      if i != j {
        TakesOther(env, s, s', j, i);
      }
    }
  }

  predicate Taking(a: Action) { a.Begin? || a.Visit? || a.Listed? || a.Ask? }

  lemma TakingShape(env: Env, s: Store, a: Action)
    requires Taking(a) && Enabled(s, a) && RequestsWait(s, a)
    ensures Takes(s, Next(env, s, a), a.j)
  {
    hide SomeMeasuring;
  }

  /** A listing has visited everything bare, or has yet to. */
  lemma TakingListing(env: Env, s: Store, a: Action)
    requires Taking(a) && Enabled(s, a) && ListsUndisturbed(s, a) && !a.Ask? && (!a.Begin? ==> JobOk(s, a.j))
    ensures var s' := Next(env, s, a);
            var job := s'.jobs[a.j];
            && !job.request && (job.left.None? <==> a.Listed?)
            && (job.left.None? ==> job.mark == s'.top)
            && forall id :: Bare(s', id) && id !in job.pending ==> job.left.Some? && id in job.left.value
  {
    hide Snappable, Safe, KnowsAll;
    SameBare(s, Next(env, s, a));
  }

  lemma TakingJob(env: Env, s: Store, a: Action)
    requires Taking(a) && Enabled(s, a) && Careful(s, a) && JobsOk(s)
    requires var s' := Next(env, s, a);
             forall id :: id in s'.jobs[a.j].pending ==>
               Snappable(s'.db.log, id, s'.jobs[a.j].pending[id]) && s'.jobs[a.j].pending[id].lastWalOffset <= s'.top
    ensures JobOk(Next(env, s, a), a.j)
  {
    if !a.Ask? {
      TakingListing(env, s, a);
    }
    hide Snappable, Safe, AllBehind, Bare, Live, Alone, SomeMeasuring;
  }

  lemma TakingKeeps(env: Env, s: Store, a: Action)
    requires StoreInv(env, s) && Taking(a) && Enabled(s, a) && Careful(s, a)
    ensures StoreInv(env, Next(env, s, a))
  {
    InvParts(env, s);
    var s' := Next(env, s, a);
    TakingShape(env, s, a);
    TakesClones(env, s, s', a.j);
    TakingJob(env, s, a);
    if a.Listed? {
      TakingListing(env, s, a);
    } else {
      assert !IsMeasuring(s'.jobs[a.j]);
    }
    hide StoreInv, Next, JobOk, NewcomersOk, Takes, Safe;
    TakingNewcomers(s, s', a);
    TakesKeeps(env, s, s', a.j);
  }

  lemma TakingNewcomers(s: Store, s': Store, a: Action)
    requires Taking(a) && NewcomersOk(s) && Takes(s, s', a.j)
    requires IsMeasuring(s'.jobs[a.j]) ==> forall id :: Bare(s', id) ==> id in s'.jobs[a.j].pending
    ensures NewcomersOk(s')
  {
    SameBare(s, s');
    hide Bare, NewcomersOk;
    TakesNewcomers(s, s', a.j);
  }

  // Jobs deal with their clones.

  /** Every clone still to be dealt with was so before. */
  ghost predicate Fewer(s: Store, s': Store) {
    forall j, id :: j in s'.jobs && id in s'.jobs[j].pending ==>
      j in s.jobs && id in s.jobs[j].pending && s'.jobs[j].pending[id] == s.jobs[j].pending[id]
  }

  /** A step that deals with some clones, none of them of a bare instance, and takes no snapshot. */
  ghost predicate Progress(s: Store, s': Store) {
    && SameDb(s, s') && s'.snaps == s.snaps && s'.indexes == s.indexes && Fewer(s, s')
    && (SomeMeasuring(s') ==> SomeMeasuring(s))
    && (forall id :: Bare(s, id) && PendingSomewhere(s, id) ==> PendingSomewhere(s', id))
  }

  lemma ProgressSafe(s: Store, s': Store, floor: nat)
    requires Progress(s, s') && Safe(s, floor)
    ensures Safe(s', floor)
  {
    hide AllAbove, PendingSomewhere;
    SameBare(s, s');
  }

  lemma ProgressNewcomers(s: Store, s': Store)
    requires Progress(s, s') && NewcomersOk(s)
    ensures NewcomersOk(s')
  {
    hide AllBehind, PendingSomewhere, Fewer, SomeMeasuring;
    SameBare(s, s');
  }

  /** A job that the step leaves alone, or that only has fewer clones to deal with, none of them bare. */
  lemma ProgressJob(s: Store, s': Store, j: nat)
    requires Progress(s, s') && j in s.jobs && JobOk(s, j) && j in s'.jobs
    requires var job, job' := s.jobs[j], s'.jobs[j];
             job'.mark == job.mark && job'.left == job.left && job'.store == job.store && job'.request == job.request
    requires var job' := s'.jobs[j];
             job'.target.Some? ==>
               !job'.request && job'.left.None? && job'.pending == map[] && Safe(s, job'.target.value)
    requires forall id :: Bare(s, id) && id in s.jobs[j].pending ==> id in s'.jobs[j].pending
    ensures JobOk(s', j)
  {
    if s'.jobs[j].target.Some? {
      ProgressSafe(s, s', s'.jobs[j].target.value);
    }
    hide AllBehind, PendingSomewhere, Safe, Snappable, SomeMeasuring;
    SameBare(s, s');
  }

  /** A step of one job, which starts no measuring. */
  lemma OneJobMeasures(s: Store, s': Store, j: nat)
    requires j in s.jobs && (s'.jobs == s.jobs - {j} || (j in s'.jobs && s'.jobs == s.jobs[j := s'.jobs[j]]))
    requires j in s'.jobs && IsMeasuring(s'.jobs[j]) ==> IsMeasuring(s.jobs[j])
    ensures SomeMeasuring(s') ==> SomeMeasuring(s)
  {
    if SomeMeasuring(s') {
      var i :| i in s'.jobs && IsMeasuring(s'.jobs[i]);
      assert i in s.jobs && IsMeasuring(s.jobs[i]);
    }
  }

  lemma LookProgress(env: Env, s: Store, a: Action)
    requires StoreInv(env, s) && a.Look? && Enabled(s, a)
    ensures Progress(s, Next(env, s, a)) && (Bare(s, a.id) ==> a.id in Next(env, s, a).jobs[a.j].pending)
  {
    hide DbInv, LiveIsFold, CreationsFirst, SnapsOk, NewcomersOk, Snappable, Safe, KnowsAll, OffsetsUpTo;
    var s', job := Next(env, s, a), s.jobs[a.j];
    assert JobOk(s, a.j);
    hide JobOk, StoreInv;
    SnappableId(s.db.log, a.id, job.pending[a.id]);
    OneJobMeasures(s, s', a.j);
    forall id | Bare(s, id) && PendingSomewhere(s, id) ensures PendingSomewhere(s', id) {
      var j :| j in s.jobs && id in s.jobs[j].pending;
      assert j in s'.jobs && id in s'.jobs[j].pending;
    }
  }

  lemma LookJob(env: Env, s: Store, a: Action, j: nat)
    requires StoreInv(env, s) && a.Look? && Enabled(s, a)
    requires j in s.jobs && j in Next(env, s, a).jobs && Progress(s, Next(env, s, a))
    requires Bare(s, a.id) ==> a.id in Next(env, s, a).jobs[a.j].pending
    ensures JobOk(Next(env, s, a), j)
  {
    hide DbInv, LiveIsFold, CreationsFirst, SnapsOk, NewcomersOk, Safe, OffsetsUpTo, Snappable, Progress, IsLeast, Bare;
    assert JobOk(s, j);
    ProgressJob(s, Next(env, s, a), j);
  }

  lemma LookKeeps(env: Env, s: Store, a: Action)
    requires StoreInv(env, s) && a.Look? && Enabled(s, a)
    ensures StoreInv(env, Next(env, s, a))
  {
    InvParts(env, s);
    hide DbInv, LiveIsFold, CreationsFirst, JobOk, Safe, NewcomersOk, SnapOk, OffsetsUpTo, Progress, IsLeast, Bare;
    var s' := Next(env, s, a);
    LookProgress(env, s, a);
    ProgressSafe(s, s', s.floor);
    ProgressNewcomers(s, s');
    forall j | j in s'.jobs ensures JobOk(s', j) { LookJob(env, s, a, j); }
  }

  lemma MeasureProgress(env: Env, s: Store, a: Action)
    requires Enabled(s, a) && (a.Measure? || a.Drop? || (a.End? && s.jobs[a.j].pending == map[]))
    ensures Progress(s, Next(env, s, a))
  {
    hide IsLeast;
    var s' := Next(env, s, a);
    if a.Drop? {
      assert SomeMeasuring(s') ==> SomeMeasuring(s);
    } else {
      OneJobMeasures(s, s', a.j);
    }
    forall id | Bare(s, id) && PendingSomewhere(s, id) ensures PendingSomewhere(s', id) {
      var j :| j in s.jobs && id in s.jobs[j].pending;
      assert j in s'.jobs && id in s'.jobs[j].pending;
    }
  }

  /** With no other compaction at work on its instances, the least snapshot bounds what can go. */
  lemma LeastIsSafe(env: Env, s: Store, a: Action)
    requires StoreInv(env, s) && a.Measure? && Enabled(s, a) && Alone(s, a)
    ensures Safe(s, TargetOf(a.least))
  {
    hide DbInv, LiveIsFold, CreationsFirst, SnapsOk;
    assert JobOk(s, a.j) && IndexOf(s, s.jobs[a.j].store) == s.snaps && SomeMeasuring(s);
    hide JobsOk, JobOk;
    if a.least.Some? {
      var m := a.least.value;
      var x :| x in s.snaps && s.snaps[x].walOffset == m;
      InvParts(env, s);
      SnapBelowTop(s, x);
      forall id | Bare(s, id) ensures AllAbove(s.db.log, SegmentOf(m), id) {
        assert !PendingSomewhere(s, id);
        assert AllBehind(s.db.log, s.snaps[x].walOffset, id);
      }
    }
  }

  lemma MeasureJob(env: Env, s: Store, a: Action, j: nat)
    requires StoreInv(env, s) && a.Measure? && Enabled(s, a) && Alone(s, a)
    requires j in s.jobs && j in Next(env, s, a).jobs && Progress(s, Next(env, s, a))
    requires Safe(s, TargetOf(a.least))
    ensures JobOk(Next(env, s, a), j)
  {
    hide DbInv, LiveIsFold, CreationsFirst, SnapsOk, NewcomersOk, Safe, OffsetsUpTo, Snappable, Progress, IsLeast, Bare;
    assert JobOk(s, j);
    ProgressJob(s, Next(env, s, a), j);
  }

  lemma MeasureKeeps(env: Env, s: Store, a: Action)
    requires StoreInv(env, s) && a.Measure? && Enabled(s, a) && Alone(s, a)
    ensures StoreInv(env, Next(env, s, a))
  {
    InvParts(env, s);
    hide DbInv, LiveIsFold, CreationsFirst, JobOk, Safe, NewcomersOk, SnapOk, OffsetsUpTo, Progress, IsLeast, Bare;
    var s' := Next(env, s, a);
    MeasureProgress(env, s, a);
    LeastIsSafe(env, s, a);
    ProgressSafe(s, s', s.floor);
    ProgressNewcomers(s, s');
    forall j | j in s'.jobs ensures JobOk(s', j) { MeasureJob(env, s, a, j); }
  }

  lemma LowerIsSafe(s: Store, floor: nat, target: nat)
    requires Safe(s, target) && floor <= target
    ensures Safe(s, floor)
  {
    forall id | Bare(s, id) ensures AllAbove(s.db.log, floor, id) {
      assert AllAbove(s.db.log, target, id);
    }
  }

  lemma DropIsSafe(env: Env, s: Store, a: Action)
    requires StoreInv(env, s) && a.Drop? && Enabled(s, a)
    ensures Safe(s, Max(s.floor, a.floor))
  {
    hide DbInv, LiveIsFold, CreationsFirst, SnapsOk, NewcomersOk, Safe, OffsetsUpTo, Snappable;
    assert JobOk(s, a.j);
    LowerIsSafe(s, a.floor, s.jobs[a.j].target.value);
  }

  lemma DropJob(env: Env, s: Store, a: Action, j: nat)
    requires StoreInv(env, s) && a.Drop? && Enabled(s, a)
    requires j in s.jobs && j in Next(env, s, a).jobs && Progress(s, Next(env, s, a))
    ensures JobOk(Next(env, s, a), j)
  {
    hide DbInv, LiveIsFold, CreationsFirst, SnapsOk, NewcomersOk, Safe, OffsetsUpTo, Snappable, Progress, IsLeast, Bare;
    assert JobOk(s, j);
    ProgressJob(s, Next(env, s, a), j);
  }

  lemma DropKeeps(env: Env, s: Store, a: Action)
    requires StoreInv(env, s) && a.Drop? && Enabled(s, a)
    ensures StoreInv(env, Next(env, s, a))
  {
    InvParts(env, s);
    hide DbInv, LiveIsFold, CreationsFirst, JobOk, Safe, NewcomersOk, SnapOk, OffsetsUpTo, Progress, IsLeast, Bare;
    var s' := Next(env, s, a);
    MeasureProgress(env, s, a);
    DropIsSafe(env, s, a);
    ProgressSafe(s, s', s'.floor);
    ProgressNewcomers(s, s');
    forall j | j in s'.jobs ensures JobOk(s', j) { DropJob(env, s, a, j); }
  }

  lemma EndIsOver(env: Env, s: Store, a: Action)
    requires StoreInv(env, s) && a.End? && Enabled(s, a)
    ensures s.jobs[a.j].pending == map[]
  {
    assert JobOk(s, a.j);
  }

  lemma EndJob(env: Env, s: Store, a: Action, j: nat)
    requires StoreInv(env, s) && a.End? && Enabled(s, a)
    requires j in s.jobs && j in Next(env, s, a).jobs && Progress(s, Next(env, s, a))
    ensures JobOk(Next(env, s, a), j)
  {
    hide DbInv, LiveIsFold, CreationsFirst, SnapsOk, NewcomersOk, Safe, OffsetsUpTo, Snappable, Progress, IsLeast, Bare;
    assert JobOk(s, j);
    ProgressJob(s, Next(env, s, a), j);
  }

  lemma EndKeeps(env: Env, s: Store, a: Action)
    requires StoreInv(env, s) && a.End? && Enabled(s, a)
    ensures StoreInv(env, Next(env, s, a))
  {
    InvParts(env, s);
    hide DbInv, LiveIsFold, CreationsFirst, JobOk, Safe, NewcomersOk, SnapOk, OffsetsUpTo, Progress, IsLeast, Bare;
    var s' := Next(env, s, a);
    EndIsOver(env, s, a);
    MeasureProgress(env, s, a);
    ProgressSafe(s, s', s.floor);
    ProgressNewcomers(s, s');
    forall j | j in s'.jobs ensures JobOk(s', j) { EndJob(env, s, a, j); }
  }

  // Saving a snapshot puts a clone in the place of what was there.

  /** With one store, its index is the one on disk. */
  lemma SaveShape(env: Env, s: Store, a: Action)
    requires a.Save? && Enabled(s, a) && JobOk(s, a.j)
    ensures var s', i := Next(env, s, a), s.jobs[a.j].pending[a.id];
            && s'.db == s.db && s'.top == s.top && s'.floor == s.floor
            && s'.snaps == s.snaps[a.id := FromInstance(i, a.snapshotId)] && IndexOf(s', 0) == s'.snaps
            && s'.jobs == s.jobs[a.j := s'.jobs[a.j]]
            && s'.jobs[a.j] == s.jobs[a.j].(pending := s.jobs[a.j].pending - {a.id}, due := s.jobs[a.j].due - {a.id})
  {
    hide Snappable, Safe, KnowsAll, Bare;
  }

  lemma SaveSafe(env: Env, s: Store, a: Action, floor: nat)
    requires a.Save? && Enabled(s, a) && JobOk(s, a.j) && Safe(s, floor)
    ensures Safe(Next(env, s, a), floor)
  {
    SaveShape(env, s, a);
    hide AllAbove, Next, JobOk;
    var s' := Next(env, s, a);
    forall id | Bare(s', id) ensures AllAbove(s'.db.log, floor, id) { assert Bare(s, id); }
  }

  lemma SaveSnaps(env: Env, s: Store, a: Action)
    requires a.Save? && Enabled(s, a) && SnapsOk(s) && JobOk(s, a.j)
    ensures SnapsOk(Next(env, s, a))
  {
    SaveShape(env, s, a);
    hide Snappable, Safe, KnowsAll, Next;
    var s', i := Next(env, s, a), s.jobs[a.j].pending[a.id];
    assert s'.snaps[a.id] == FromInstance(i, s'.snaps[a.id].snapshotId) && Snappable(s.db.log, a.id, i);
    assert SnapOk(s.db.log, a.id, s'.snaps[a.id]);
  }

  lemma SaveJob(env: Env, s: Store, a: Action, j: nat)
    requires a.Save? && Enabled(s, a) && JobOk(s, a.j) && j in s.jobs && JobOk(s, j)
    ensures JobOk(Next(env, s, a), j)
  {
    var s', job := Next(env, s, a), s.jobs[j];
    hide Snappable, Safe, AllBehind, Next, Bare, Enabled, KnowsAll;
    SaveShape(env, s, a);
    SaveBares(env, s, a);
    if job.target.Some? {
      SaveSafe(env, s, a, job.target.value);
    }
    if !job.request && job.left.None? {
      SaveKnown(s, s', job, s'.jobs[j], a.id);
    }
  }

  lemma SaveBares(env: Env, s: Store, a: Action)
    requires a.Save? && Enabled(s, a) && JobOk(s, a.j)
    ensures forall id :: Bare(Next(env, s, a), id) ==> Bare(s, id) && id != a.id
  {
    SaveShape(env, s, a);
    hide Next, JobOk;
  }

  lemma SaveKnown(s: Store, s': Store, job: Job, job': Job, id: string)
    requires KnowsAll(s, job) && SameDb(s, s')
    requires job' == job || job' == job.(pending := job.pending - {id}, due := job.due - {id})
    requires forall x :: Bare(s', x) ==> Bare(s, x) && x != id
    ensures KnowsAll(s', job')
  {
    hide Bare, AllBehind;
  }

  lemma SaveNewcomers(env: Env, s: Store, a: Action)
    requires a.Save? && Enabled(s, a) && NewcomersOk(s) && JobOk(s, a.j) && RequestsWait(s, a)
    ensures NewcomersOk(Next(env, s, a))
  {
    SaveShape(env, s, a);
    hide Snappable, Safe, Next;
    var s' := Next(env, s, a);
    OneJobMeasures(s, s', a.j);
    if SomeMeasuring(s') {
      forall id, x | Bare(s', id) && !PendingSomewhere(s', id) && x in s'.snaps
        ensures AllBehind(s'.db.log, s'.snaps[x].walOffset, id)
      {
        assert Bare(s, id) && id != a.id;
        StillNowhere(env, s, a, id);
        assert x != a.id ==> AllBehind(s.db.log, s.snaps[x].walOffset, id);
        assert AllBehind(s.db.log, s.jobs[a.j].mark, id);
      }
    }
  }

  lemma StillNowhere(env: Env, s: Store, a: Action, id: string)
    requires a.Save? && Enabled(s, a) && id != a.id && !PendingSomewhere(Next(env, s, a), id)
    ensures !PendingSomewhere(s, id) && id !in s.jobs[a.j].pending
  {
    var s' := Next(env, s, a);
    forall j | j in s.jobs ensures id !in s.jobs[j].pending {
      assert j in s'.jobs && id !in s'.jobs[j].pending;
    }
  }

  lemma SaveKeeps(env: Env, s: Store, a: Action)
    requires StoreInv(env, s) && a.Save? && Enabled(s, a) && RequestsWait(s, a)
    ensures StoreInv(env, Next(env, s, a))
  {
    InvParts(env, s);
    hide DbInv, LiveIsFold, CreationsFirst, JobOk, Safe, NewcomersOk, SnapsOk, OffsetsUpTo;
    var s' := Next(env, s, a);
    assert JobOk(s, a.j);
    SaveShape(env, s, a);
    SaveSafe(env, s, a, s.floor);
    SaveSnaps(env, s, a);
    SaveNewcomers(env, s, a);
    forall j | j in s'.jobs ensures JobOk(s', j) { SaveJob(env, s, a, j); }
  }

  lemma NextKeeps(env: Env, s: Store, a: Action)
    requires StoreInv(env, s) && Enabled(s, a) && Careful(s, a)
    ensures StoreInv(env, Next(env, s, a))
  {
    hide StoreInv, Enabled, Next, Alone, ListsUndisturbed, RequestsWait;
    match a
    case Operate(_) => EngineKeeps(env, s, a);
    case Start(_) => EngineKeeps(env, s, a);
    case Insert(_) => EngineKeeps(env, s, a);
    case Begin(_, _, _) => TakingKeeps(env, s, a);
    case Visit(_, _) => TakingKeeps(env, s, a);
    case Listed(_) => TakingKeeps(env, s, a);
    case Ask(_, _, _) => TakingKeeps(env, s, a);
    case Look(_, _) => LookKeeps(env, s, a);
    case Save(_, _, _) => SaveKeeps(env, s, a);
    case Measure(_, _) => MeasureKeeps(env, s, a);
    case Drop(_, _) => DropKeeps(env, s, a);
    case End(_) => EndKeeps(env, s, a);
  }

  /** Jobs can be given up at any time. */
  lemma ForgettingKeeps(env: Env, s: Store)
    requires StoreInv(env, s)
    ensures StoreInv(env, s.(jobs := map[], entering := {}))
  {
    hide DbInv, LiveIsFold, CreationsFirst, SnapOk, OffsetsUpTo, AllAbove, AllBehind;
    var s' := s.(jobs := map[], entering := {});
    SameBare(s, s');
    assert !SomeMeasuring(s');
  }

  const START: Store := Store(Db(EMPTY, []), 0, 0, {}, map[], map[], map[])

  lemma StartInv(env: Env)
    ensures StoreInv(env, START)
  {
    EmptyDb(env);
  }

  /** A run of engine calls with compactions and requests in between and underneath. */
  ghost predicate IsRun(env: Env, states: seq<Store>, actions: seq<Action>) {
    && |states| == |actions| + 1 && states[0] == START
    && forall i :: 0 <= i < |actions| ==>
         Enabled(states[i], actions[i]) && states[i + 1] == Next(env, states[i], actions[i])
  }

  /** Every step keeps the conditions above. */
  ghost predicate Considerate(states: seq<Store>, actions: seq<Action>)
    requires |states| == |actions| + 1
  {
    forall i :: 0 <= i < |actions| ==> Careful(states[i], actions[i])
  }

  lemma {:induction false} RunInv(env: Env, states: seq<Store>, actions: seq<Action>, k: nat)
    requires IsRun(env, states, actions) && Considerate(states, actions) && k < |states|
    ensures StoreInv(env, states[k])
    decreases k
  {
    hide StoreInv, Enabled, Next, Careful;
    if k == 0 {
      StartInv(env);
    } else {
      RunInv(env, states, actions, k - 1);
      NextKeeps(env, states[k - 1], actions[k - 1]);
    }
  }

  /**
   Compaction preserves meaning: over any considerate run mixing engine calls, creations under way, compaction steps
   and snapshot requests, loading the indexed snapshots and replaying only the retained records gives every live
   instance as the engine has it, and no deleted instance comes back as live.
   */
  lemma CompactionPreservesMeaning(env: Env, states: seq<Store>, actions: seq<Action>, k: nat, id: string)
    requires IsRun(env, states, actions) && Considerate(states, actions) && k < |states|
    ensures var s := states[k];
            RecoversAs(At(Recover(s.snaps, Retained(s)), id), At(s.db.es.instances, id))
  {
    hide IsRun, StoreInv, Recover, RecoversAs;
    RunInv(env, states, actions, k);
    RecoveryAgrees(env, states[k], id);
  }

  // ---------------------------------------------------------------------------------------------------------------
  // Where the promise ends
  // ---------------------------------------------------------------------------------------------------------------

  /**
   A snapshot taken of any instance, deleted or not, comes back active if and only if no deletion of it is retained:
   a snapshot of a deleted instance revives it once the segment with its deletion is gone.
   */
  lemma SnapshotRevives(i: Instance, snapshotId: string, retained: Log)
    ensures IsActive(FoldOne(Some(ToInstance(FromInstance(i, snapshotId))), retained, i.id))
        <==> !Deletes(retained, i.id)
  {
    hide FoldOne;
    FoldOneLifecycle(Some(ToInstance(FromInstance(i, snapshotId))), retained, i.id);
  }

  ghost predicate PutsKey(e: WalEntry, key: MachineKey) {
    e.PutMachine? && MachineKey(e.machine, e.version) == key
  }

  /** The first record of every log puts a machine. */
  lemma FirstIsPut(env: Env, log: Log)
    requires LogOk(env, log) && log != []
    ensures log[0].entry.PutMachine?
  {
    LogOkPrefix(env, log, 0);
    assert log[..0] == [];
  }

  lemma {:induction false} DefsWerePut(env: Env, log: Log, key: MachineKey)
    requires forall k :: 0 <= k < |log| ==> !PutsKey(log[k].entry, key)
    ensures key !in Replay(env, log).defs
  {
    hide FromJson;
    if log == [] {
    } else {
      assert !PutsKey(log[|log| - 1].entry, key);
      DefsWerePut(env, log[..|log| - 1], key);
    }
  }

  /** A machine is put once, and then it is there. */
  lemma PutOnce(env: Env, log: Log, k: nat, key: MachineKey)
    requires LogOk(env, log) && k < |log| && PutsKey(log[k].entry, key)
    ensures key in Replay(env, log).defs
    ensures forall j :: k < j < |log| ==> !PutsKey(log[j].entry, key)
  {
    hide FromJson, Replay, LogOk;
    PutIsThere(env, log, k, key);
    assert log[..|log|] == log;
    DefsGrow(env, log, k + 1);
    forall j | k < j < |log| ensures !PutsKey(log[j].entry, key) {
      LogOkPrefix(env, log, j);
      DefsGrow(env, log[..j], k + 1);
      assert log[..j][..k + 1] == log[..k + 1];
    }
  }

  lemma PutIsThere(env: Env, log: Log, k: nat, key: MachineKey)
    requires LogOk(env, log) && k < |log| && PutsKey(log[k].entry, key)
    ensures key in Replay(env, log[..k + 1]).defs
  {
    hide FromJson, Replay, LogOk, AdmissibleApply;
    LogOkPrefix(env, log, k);
    assert log[..k + 1] == log[..k] + [log[k]];
    ReplayLast(env, log[..k], log[k]);
    NullIsNoDefinition(env, key.name, key.version);
  }

  /** The engine's own restart rebuilds its tables if and only if no record at all was deleted. */
  lemma RestartRebuilds(env: Env, s: Store)
    requires StoreInv(env, s)
    ensures SameTables(Replay(env, Retained(s)), s.db.es) <==> Retained(s) == s.db.log
  {
    hide Replay, LogOk, FromSegment, SnapsOk, JobsOk, Safe, NewcomersOk, LiveIsFold, CreationsFirst, FromJson;
    var log := s.db.log;
    var p := RetainedIsSuffix(log, s.floor, s.top);
    if p == 0 {
      assert log[p..] == log;
    } else {
      FirstIsPut(env, log);
      var key := MachineKey(log[0].entry.machine, log[0].entry.version);
      PutOnce(env, log, 0, key);
      assert forall k :: 0 <= k < |log[p..]| ==> log[p..][k] == log[p + k];
      DefsWerePut(env, log[p..], key);
      assert |Retained(s)| < |log|;
    }
  }

  lemma {:induction false} ReplaySeesCreated(env: Env, log: Log, id: string)
    ensures id in Replay(env, log).instances <==> exists k :: 0 <= k < |log| && CreatesId(log[k].entry, id)
  {
    hide FromJson;
    if log == [] {
    } else {
      var before := log[..|log| - 1];
      ReplaySeesCreated(env, before, id);
      if k :| 0 <= k < |before| && CreatesId(before[k].entry, id) {
        assert log[k] == before[k];
      }
      if k :| 0 <= k < |log| && CreatesId(log[k].entry, id) {
        assert k < |before| ==> before[k] == log[k];
      }
    }
  }

  ghost predicate CreationsRetained(s: Store) {
    forall k :: 0 <= k < |s.db.log| && s.db.log[k].entry.CreateInstance? ==>
      SegmentOf(s.db.log[k].offset) >= s.floor
  }

  /**
   The engine's own restart reads the log and no snapshots. It finds the instances it had if and only if compaction has
   deleted no creation record.
   */
  lemma RestartFindsInstances(env: Env, s: Store)
    requires StoreInv(env, s)
    ensures Replay(env, Retained(s)).instances.Keys == s.db.es.instances.Keys <==> CreationsRetained(s)
  {
    hide Replay, LogOk, FromSegment, SnapsOk, JobsOk, Safe, NewcomersOk, LiveIsFold;
    var log := s.db.log;
    var p := RetainedIsSuffix(log, s.floor, s.top);
    var found := Replay(env, log[p..]).instances;
    if CreationsRetained(s) {
      forall id ensures id in found <==> id in s.db.es.instances {
        ReplaySeesCreated(env, log[p..], id);
        ReplaySeesCreated(env, log, id);
        if k :| 0 <= k < |log| && CreatesId(log[k].entry, id) {
          assert log[p..][k - p] == log[k];
        }
        if k :| 0 <= k < |log[p..]| && CreatesId(log[p..][k].entry, id) {
          assert log[p + k] == log[p..][k];
        }
      }
    } else {
      var k :| 0 <= k < |log| && log[k].entry.CreateInstance? && SegmentOf(log[k].offset) < s.floor;
      var id := log[k].entry.instanceId;
      ReplaySeesCreated(env, log, id);
      ReplaySeesCreated(env, log[p..], id);
      assert CreatesId(log[k].entry, id);
      assert forall j :: 0 <= j < |log[p..]| ==> log[p..][j] == log[p + j];
      assert id in s.db.es.instances.Keys && id !in found.Keys;
    }
  }
}
