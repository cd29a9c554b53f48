/** Compaction and recovery as the server and the storage layer carry them out. */
module Maintenance {
  import opened Common
  import opened Json
  import opened Segment
  import opened Entry
  import opened Offset
  import opened Wal
  import opened Paging
  import opened LiveWal
  import opened Engine
  import opened EngineSafety
  import opened Crash
  import opened LiveEngine
  import opened Snapshots
  import opened Stack
  import Compaction
  import CompactionRuns

  // ---------------------------------------------------------------------------------------------------------------
  // Recovery
  // ---------------------------------------------------------------------------------------------------------------

  /** The instances that the storage layer keeps. */
  class Storage {
    var instances: map<string, Instance>

    constructor ()
      ensures instances == map[]
    {
      instances := map[];
    }

    /** `apply_wal_entry`. */
    method ApplyWalEntry(entry: WalEntry)
      modifies this
      ensures instances == Compaction.StoreEntry(old(instances), entry)
    {
      match entry
      case CreateInstance(id, machine, version, initialState, initialCtx, _) =>
        if id !in instances {
          instances := instances[id := NewInstance(id, machine, version, initialState, initialCtx, 0)];
        }
      case ApplyEvent(id, _, _, toState, _, ctx, eventId, _) =>
        if id in instances {
          var i := instances[id].(state := toState, ctx := ctx, lastEventId := eventId, lastWalOffset := 0);
          instances := instances[id := i];
        }
      case DeleteInstance(id, _) =>
        if id in instances {
          instances := instances[id := instances[id].(lifecycle := Deleted, lastWalOffset := 0)];
        }
      case _ =>
    }

    /** The first half of `recover`: every indexed snapshot becomes an instance. */
    method LoadSnapshots(snapshots: SnapshotStore)
      requires snapshots.Valid() && instances == map[]
      modifies this
      ensures instances == map id | id in snapshots.Latest() :: Compaction.ToInstance(snapshots.Latest()[id])
    {
      var rest := snapshots.index.Keys;
      while rest != {}
        invariant rest <= snapshots.index.Keys
        invariant instances
               == map id | id in snapshots.Latest() && id !in rest :: Compaction.ToInstance(snapshots.Latest()[id])
        decreases |rest|
      {
        var id :| id in rest;
        rest := rest - {id};
        var instance := Compaction.ToInstance(snapshots.dir.files[snapshots.index[id].snapshotId]);
        instances := instances[instance.id := instance];
      }
    }

    method ApplyAll(entries: Log)
      modifies this
      ensures instances == Compaction.StoreFold(old(instances), entries)
    {
      hide Compaction.StoreEntry;
      for i := 0 to |entries|
        invariant instances == Compaction.StoreFold(old(instances), entries[..i])
      {
        FoldStep(old(instances), entries, i);
        ApplyWalEntry(entries[i].entry);
      }
      assert entries[..|entries|] == entries;
    }

    /** `recover`: the snapshots, then every record from the earliest offset of the log on. */
    method Recover(wal: WriteAheadLog, snapshots: SnapshotStore) returns (r: Result<(), ReadFailure>)
      requires wal.Valid() && snapshots.Valid() && instances == map[]
      modifies this
      ensures match ReadFiles(wal.env, wal.State().files, Pack(wal.segments[0].id, 0), None, [])
              case Err(e) => r == Err(e)
              case Ok(entries) => r.Ok? && instances == Compaction.Recover(snapshots.Latest(), entries)
      ensures WalInv(wal.env, wal.State()) ==>
                r.Ok? && instances == Compaction.Recover(snapshots.Latest(), LogOf(wal.env, wal.State().files))
    {
      hide WalInv, LogOf, ReadPage, ReadFiles, AsFiles, Opened, Pack, Compaction.StoreFold, SnapshotStore.Valid;
      LoadSnapshots(snapshots);
      AsFilesAt(wal.segments, 0);
      var read := wal.ReadFrom(Pack(wal.segments[0].id, 0), None);
      match read
      case Err(e) => return Err(e);
      case Ok(entries) =>
        EarliestIsAll(wal.env, wal.State());
        ApplyAll(entries);
        return Ok(());
    }
  }

  lemma FoldStep(start: map<string, Instance>, log: Log, i: nat)
    requires i < |log|
    ensures Compaction.StoreFold(start, log[..i + 1])
         == Compaction.StoreEntry(Compaction.StoreFold(start, log[..i]), log[i].entry)
  {
    assert log[..i + 1][..i] == log[..i];
  }

  /** Reading from the earliest offset reads the whole log. */
  lemma EarliestIsAll(env: Env, w: WalState)
    requires w.files != []
    ensures WalInv(env, w) ==>
              ReadPage(LogOf(env, w.files), Pack(w.files[0].id, 0), None) == LogOf(env, w.files)
  {
    hide LogOf;
    if WalInv(env, w) {
      LogOffsets(env, w.files, w.maxSize);
      PackPlain(w.files[0].id, 0);
      FromEverything(LogOf(env, w.files), Pack(w.files[0].id, 0));
    }
  }

  // ---------------------------------------------------------------------------------------------------------------
  // Compaction
  // ---------------------------------------------------------------------------------------------------------------

  lemma LiveIds(env: Env, sys: System, s: Compaction.Store, id: string)
    requires Linked(env, sys, s) && id in Compaction.Live(sys.es.instances)
    ensures Compaction.Live(sys.es.instances)[id].id == id
  {
    hide Linked, Compaction.StoreInv, Compaction.Snappable, Compaction.TakenAt;
    LinkedParts(env, sys, s);
    var _ := Compaction.LiveIsSnappable(env, s, id);
    Compaction.SnappableId(s.db.log, id, s.db.es.instances[id]);
  }

  /** What one turn of the compaction loops makes of the run: look, and save if it is needed. */
  ghost function Turned(env: Env, s: Compaction.Store, j: nat, id: string, snapshotId: string): Compaction.Store
    requires Compaction.Enabled(s, Compaction.Look(j, id))
  {
    var s' := Compaction.Next(env, s, Compaction.Look(j, id));
    if Compaction.Needs(s.jobs[j].force, Compaction.IndexOf(s, s.jobs[j].store), s.jobs[j].pending[id]) then
      Compaction.Next(env, s', Compaction.Save(j, id, snapshotId))
    else s'
  }

  /** One turn: snapshots an instance if its newest snapshot is missing or, forced, outdated. */
  method SnapInstance(snapshots: SnapshotStore, i: Instance, force: bool, snapshotId: string)
    returns (created: bool)
    requires snapshots.Valid() && snapshotId !in snapshots.dir.files
    modifies snapshots, snapshots.dir
    ensures snapshots.Valid()
    ensures created <==> Compaction.Needs(force, old(snapshots.Latest()), i)
    ensures snapshots.Latest()
         == if created then old(snapshots.Latest())[i.id := Compaction.FromInstance(i, snapshotId)]
            else old(snapshots.Latest())
    ensures snapshots.dir.files.Keys <= old(snapshots.dir.files.Keys) + {snapshotId}
    ensures old(snapshots.index == snapshots.dir.saved) ==> snapshots.index == snapshots.dir.saved
  {
    var meta := snapshots.GetSnapshotMeta(i.id);
    if force {
      created := meta.None? || i.lastWalOffset > meta.value.walOffset;
    } else {
      created := meta.None?;
    }
    if created {
      var _ := snapshots.CreateSnapshot(Compaction.FromInstance(i, snapshotId));
    }
  }

  /** Snapshot ids are not handed out twice, and none names a file there is. */
  ghost predicate FreshIds(newId: nat -> string, from: nat, files: map<string, Compaction.Snapshot>) {
    && (forall j: nat, k: nat :: newId(j) == newId(k) ==> j == k)
    && (forall k: nat :: k >= from ==> newId(k) !in files)
  }

  lemma FreshIdAt(newId: nat -> string, k: nat, files: map<string, Compaction.Snapshot>)
    requires FreshIds(newId, k, files)
    ensures newId(k) !in files
  {
  }

  lemma NextFreshIds(newId: nat -> string, k: nat, files: map<string, Compaction.Snapshot>,
                     files': map<string, Compaction.Snapshot>)
    requires FreshIds(newId, k, files) && files'.Keys <= files.Keys + {newId(k)}
    ensures FreshIds(newId, k + 1, files')
  {
  }

  /** The newest snapshot is missing or, where it matters, behind the instance. */
  predicate Stale(snaps: map<string, Compaction.Snapshot>, id: string, i: Instance, force: bool) {
    id !in snaps || (force && snaps[id].walOffset < i.lastWalOffset)
  }

  /** Of the live instances in `done`, those whose snapshot is stale. */
  ghost function Outdated(s: Compaction.Store, live: map<string, Instance>, force: bool, done: set<string>)
    : set<string>
  {
    set id | id in done && id in live && Stale(s.snaps, id, live[id], force)
  }

  lemma OutdatedStep(s: Compaction.Store, live: map<string, Instance>, force: bool, done: set<string>, id: string)
    requires id in live && id !in done
    ensures |Outdated(s, live, force, done + {id})|
         == |Outdated(s, live, force, done)| + if Stale(s.snaps, id, live[id], force) then 1 else 0
  {
    hide Stale;
    var before := Outdated(s, live, force, done);
    assert Outdated(s, live, force, done + {id})
        == if Stale(s.snaps, id, live[id], force) then before + {id} else before;
  }

  lemma OutdatedNone(s: Compaction.Store, live: map<string, Instance>, force: bool)
    ensures Outdated(s, live, force, {}) == {}
  {
  }

  /**
   What a compaction has done about the instances in `done`: each has a snapshot, forced one that is not behind it, and
   where the old one was good enough it is still there. Nothing else has changed.
   */
  ghost predicate Dealt(snaps: map<string, Compaction.Snapshot>, first: map<string, Compaction.Snapshot>,
                        live: map<string, Instance>, force: bool, done: set<string>)
  {
    && (forall id :: id in done && id in live ==>
          !Stale(snaps, id, live[id], force) && (Stale(first, id, live[id], force) || At(snaps, id) == At(first, id)))
    && (forall id :: id !in done || id !in live ==> At(snaps, id) == At(first, id))
  }

  lemma DealtStep(snaps: map<string, Compaction.Snapshot>, snaps': map<string, Compaction.Snapshot>,
                  first: map<string, Compaction.Snapshot>, live: map<string, Instance>, force: bool, done: set<string>,
                  id: string, snapshotId: string)
    requires Dealt(snaps, first, live, force, done) && id in live && id !in done && live[id].id == id
    requires snaps' == if Compaction.Needs(force, snaps, live[id]) then
                         snaps[id := Compaction.FromInstance(live[id], snapshotId)]
                       else snaps
    ensures Dealt(snaps', first, live, force, done + {id})
    ensures Compaction.Needs(force, snaps, live[id]) <==> Stale(first, id, live[id], force)
  {
    assert At(snaps, id) == At(first, id);
    forall x | x != id ensures At(snaps', x) == At(snaps, x) {
    }
  }

  /** No job has clones in hand. */
  ghost predicate NobodyPending(s: Compaction.Store) {
    forall j :: j in s.jobs ==> s.jobs[j].pending == map[]
  }

  /** The job of a compaction that has listed the instances and looked at those in `done`. */
  function JobAt(start: Compaction.Store, live: map<string, Instance>, force: bool, done: set<string>): Compaction.Job {
    Compaction.Job(false, force, 0, None, live - done, {}, start.top, None)
  }

  /** Compaction `j` has looked at the instances in `done`: the run that it stands for. */
  ghost predicate Underway(env: Env, sys: System, s: Compaction.Store, start: Compaction.Store, j: nat, force: bool,
                           done: set<string>)
  {
    && Linked(env, sys, s) && s.db == start.db && s.top == start.top && s.entering == start.entering
    && s.jobs == start.jobs[j := JobAt(start, Compaction.Live(sys.es.instances), force, done)]
    && Compaction.IndexOf(s, 0) == s.snaps
    && (forall id :: id in Compaction.Live(sys.es.instances) && id !in done ==>
          (Compaction.Needs(force, s.snaps, Compaction.Live(sys.es.instances)[id])
           <==> Compaction.Needs(force, start.snaps, Compaction.Live(sys.es.instances)[id])))
  }

  /** Steps that visit instances and end listings leave the files as they are. */
  lemma {:induction false} LinkedListing(env: Env, sys: System, s: Compaction.Store, steps: seq<Compaction.Action>,
                                         s': Compaction.Store)
    requires Linked(env, sys, s) && CompactionRuns.Leads(env, s, steps, s', CompactionRuns.Nothing)
    requires forall i :: 0 <= i < |steps| ==> steps[i].Visit? || steps[i].Listed?
    ensures Linked(env, sys, s')
    decreases |steps|
  {
    hide Linked, Compaction.Enabled, Compaction.Next, Compaction.Alone, Compaction.ListsUndisturbed,
         Compaction.RequestsWait;
    if steps == [] {
    } else {
      LinkedInMemory(env, sys, s, steps[0]);
      LinkedListing(env, sys, Compaction.Next(env, s, steps[0]), steps[1..], s');
    }
  }

  /** The run at the start of the loop: the compaction has begun and listed every live instance. */
  lemma LoopStart(env: Env, sys: System, start: Compaction.Store, j: nat, force: bool) returns (s: Compaction.Store)
    requires Linked(env, sys, start) && j !in start.jobs && start.entering == {}
    ensures Underway(env, sys, s, start, j, force, {}) && s.snaps == start.snaps
    ensures Outdated(start, Compaction.Live(sys.es.instances), force, {}) == {}
  {
    hide Linked, Compaction.Live, Compaction.Next, Compaction.Enabled, CompactionRuns.Leads;
    LinkedParts(env, sys, start);
    CompactionRuns.BeginsListing(env, start, j, force);
    LinkedInMemory(env, sys, start, Compaction.Begin(j, force, 0));
    var keys := start.db.es.instances.Keys;
    var begun := CompactionRuns.Listing(start, j, force, keys);
    var steps := CompactionRuns.ListsAll(env, start, j, force, keys, CompactionRuns.Nothing);
    s := CompactionRuns.ListedAll(start, j, force);
    LinkedListing(env, sys, begun, steps, s);
    OneIndex(env, sys, s);
    assert Compaction.Live(sys.es.instances) - {} == Compaction.Live(sys.es.instances);
    OutdatedNone(start, Compaction.Live(sys.es.instances), force);
  }

  lemma OneIndex(env: Env, sys: System, s: Compaction.Store)
    requires Linked(env, sys, s)
    ensures Compaction.IndexOf(s, 0) == s.snaps
  {
    hide WalInv, LogOf, Durable, DbInv, Compaction.CreationsFirst, Compaction.LiveIsFold, Compaction.SnapsOk,
         Compaction.JobOk, Compaction.NewcomersOk, FromSegment, Compaction.Safe;
  }

  /** What a turn of the loop may rely on. */
  lemma UnderwayAt(env: Env, sys: System, s: Compaction.Store, start: Compaction.Store, j: nat, force: bool,
                   done: set<string>, id: string)
    requires Underway(env, sys, s, start, j, force, done) && id in Compaction.Live(sys.es.instances) && id !in done
    ensures Compaction.Enabled(s, Compaction.Look(j, id)) && s.jobs[j].force == force
    ensures s.jobs[j].pending[id] == Compaction.Live(sys.es.instances)[id] && !s.jobs[j].request
    ensures Compaction.Needs(force, s.snaps, Compaction.Live(sys.es.instances)[id])
         == Compaction.Needs(force, start.snaps, Compaction.Live(sys.es.instances)[id])
  {
    hide Linked, Compaction.Live, Compaction.Needs;
  }

  lemma TurnedLinked(env: Env, sys: System, s: Compaction.Store, j: nat, id: string, snapshotId: string)
    requires Linked(env, sys, s) && Compaction.Enabled(s, Compaction.Look(j, id)) && !s.jobs[j].request
    ensures Linked(env, sys, Turned(env, s, j, id, snapshotId))
  {
    hide Linked, Compaction.Needs;
    LinkedInMemory(env, sys, s, Compaction.Look(j, id));
    if Compaction.Needs(s.jobs[j].force, Compaction.IndexOf(s, s.jobs[j].store), s.jobs[j].pending[id]) {
      var s' := Compaction.Next(env, s, Compaction.Look(j, id));
      LinkedInMemory(env, sys, s', Compaction.Save(j, id, snapshotId));
    }
  }

  /** A store whose only index is the one on disk, with job `j` beside the others. */
  ghost predicate Beside(s: Compaction.Store, jobs: map<nat, Compaction.Job>, j: nat, job: Compaction.Job) {
    s.jobs == jobs[j := job] && job.store == 0 && job.left.None? && Compaction.IndexOf(s, 0) == s.snaps
  }

  lemma LookShape(env: Env, s: Compaction.Store, jobs: map<nat, Compaction.Job>, j: nat, job: Compaction.Job,
                  id: string)
    requires Beside(s, jobs, j, job) && id in job.pending && job.due == {}
    ensures Compaction.Enabled(s, Compaction.Look(j, id))
    ensures var s' := Compaction.Next(env, s, Compaction.Look(j, id));
            var job' := if Compaction.Needs(job.force, s.snaps, job.pending[id]) then job.(due := {id})
                        else job.(pending := job.pending - {id});
            s' == s.(jobs := s'.jobs) && Beside(s', jobs, j, job')
  {
    hide Compaction.Needs;
    assert {} + {id} == {id};
  }

  lemma SaveShape(env: Env, s: Compaction.Store, jobs: map<nat, Compaction.Job>, j: nat, job: Compaction.Job,
                  id: string, snapshotId: string)
    requires Beside(s, jobs, j, job) && id in job.pending && job.due == {id}
    ensures Compaction.Enabled(s, Compaction.Save(j, id, snapshotId))
    ensures var s' := Compaction.Next(env, s, Compaction.Save(j, id, snapshotId));
            && s'.db == s.db && s'.top == s.top && s'.entering == s.entering
            && s'.snaps == s.snaps[id := Compaction.FromInstance(job.pending[id], snapshotId)]
            && Beside(s', jobs, j, job.(pending := job.pending - {id}, due := {}))
  {
    assert {id} - {id} == {};
  }

  lemma TurnedShape(env: Env, s: Compaction.Store, jobs: map<nat, Compaction.Job>, j: nat, job: Compaction.Job,
                    id: string, snapshotId: string)
    requires Beside(s, jobs, j, job) && id in job.pending && job.due == {}
    ensures Compaction.Enabled(s, Compaction.Look(j, id))
    ensures var s' := Turned(env, s, j, id, snapshotId);
            && s'.db == s.db && s'.top == s.top && s'.entering == s.entering
            && Beside(s', jobs, j, job.(pending := job.pending - {id}))
            && s'.snaps == if Compaction.Needs(job.force, s.snaps, job.pending[id]) then
                             s.snaps[id := Compaction.FromInstance(job.pending[id], snapshotId)]
                           else s.snaps
  {
    hide Compaction.Needs, Compaction.Next, Compaction.Enabled;
    LookShape(env, s, jobs, j, job, id);
    if Compaction.Needs(job.force, s.snaps, job.pending[id]) {
      var s1, job1 := Compaction.Next(env, s, Compaction.Look(j, id)), job.(due := {id});
      SaveShape(env, s1, jobs, j, job1, id, snapshotId);
      assert job1.(pending := job1.pending - {id}, due := {}) == job.(pending := job.pending - {id});
    }
  }

  lemma NeedsOfOthers(force: bool, snaps: map<string, Compaction.Snapshot>, id: string, snap: Compaction.Snapshot,
                      i: Instance)
    requires i.id != id
    ensures Compaction.Needs(force, snaps[id := snap], i) == Compaction.Needs(force, snaps, i)
  {
  }

  lemma UnderwaySnap(env: Env, sys: System, s: Compaction.Store, start: Compaction.Store, j: nat, force: bool,
                     done: set<string>, id: string, snapshotId: string)
    requires Underway(env, sys, s, start, j, force, done) && id in Compaction.Live(sys.es.instances) && id !in done
    requires Compaction.Enabled(s, Compaction.Look(j, id)) && !s.jobs[j].request
    ensures var i, s' := Compaction.Live(sys.es.instances)[id], Turned(env, s, j, id, snapshotId);
            && Underway(env, sys, s', start, j, force, done + {id}) && i.id == id
            && s'.snaps == if Compaction.Needs(force, s.snaps, i) then
                             s.snaps[id := Compaction.FromInstance(i, snapshotId)]
                           else s.snaps
  {
    hide Linked, Compaction.Live, Compaction.Enabled, Turned, Compaction.Needs;
    TurnedLinked(env, sys, s, j, id, snapshotId);
    var live, s' := Compaction.Live(sys.es.instances), Turned(env, s, j, id, snapshotId);
    var job := JobAt(start, live, force, done);
    TurnedShape(env, s, start.jobs, j, job, id, snapshotId);
    assert live - done - {id} == live - (done + {id});
    LiveIds(env, sys, s, id);
    forall other | other in live && other !in done + {id}
      ensures Compaction.Needs(force, s'.snaps, live[other]) == Compaction.Needs(force, start.snaps, live[other])
    {
      LiveIds(env, sys, s, other);
      NeedsOfOthers(force, s.snaps, id, Compaction.FromInstance(live[id], snapshotId), live[other]);
    }
  }

  /** The run after one more turn of the loop. */
  lemma LoopTurn(env: Env, sys: System, s: Compaction.Store, start: Compaction.Store, j: nat, force: bool,
                 done: set<string>, id: string, snapshotId: string)
    returns (s': Compaction.Store)
    requires Underway(env, sys, s, start, j, force, done) && id in Compaction.Live(sys.es.instances) && id !in done
    ensures Underway(env, sys, s', start, j, force, done + {id})
    requires Dealt(s.snaps, start.snaps, Compaction.Live(sys.es.instances), force, done)
    ensures Dealt(s'.snaps, start.snaps, Compaction.Live(sys.es.instances), force, done + {id})
    ensures var live := Compaction.Live(sys.es.instances);
            var needed := Compaction.Needs(force, s.snaps, live[id]);
            && live[id].id == id
            && s'.snaps == (if needed then s.snaps[id := Compaction.FromInstance(live[id], snapshotId)] else s.snaps)
            && |Outdated(start, live, force, done + {id})|
               == |Outdated(start, live, force, done)| + if needed then 1 else 0
  {
    hide Linked, Underway, Compaction.Live, Compaction.Needs, Turned, Outdated, Dealt, Stale, Compaction.FromInstance;
    var live := Compaction.Live(sys.es.instances);
    UnderwayAt(env, sys, s, start, j, force, done, id);
    UnderwaySnap(env, sys, s, start, j, force, done, id, snapshotId);
    OutdatedStep(start, live, force, done, id);
    s' := Turned(env, s, j, id, snapshotId);
    DealtStep(s.snaps, s'.snaps, start.snaps, live, force, done, id, snapshotId);
  }

  lemma NothingDealt(snaps: map<string, Compaction.Snapshot>, live: map<string, Instance>, force: bool)
    ensures Dealt(snaps, snaps, live, force, {})
  {
  }

  /** A snapshot that is not behind its instance is one of the instance as it is. */
  lemma UpToDate(env: Env, sys: System, s: Compaction.Store, id: string)
    requires Linked(env, sys, s) && id in Compaction.Live(sys.es.instances) && id in s.snaps
    requires s.snaps[id].walOffset >= sys.es.instances[id].lastWalOffset
    ensures s.snaps[id] == Compaction.FromInstance(sys.es.instances[id], s.snaps[id].snapshotId)
  {
    LinkedParts(env, sys, s);
    hide Linked, WalInv, LogOf, Durable;
    Compaction.NewestIsExact(env, s, id);
  }

  /** What a compaction leaves: a snapshot of every live instance and, forced, of the instance as it is. */
  ghost predicate Covers(snaps: map<string, Compaction.Snapshot>, instances: map<string, Instance>, force: bool) {
    forall id :: id in Compaction.Live(instances) ==>
      id in snaps && (force ==> snaps[id] == Compaction.FromInstance(instances[id], snaps[id].snapshotId))
  }

  lemma DealtCovers(env: Env, sys: System, s: Compaction.Store, start: Compaction.Store, force: bool)
    requires Linked(env, sys, s)
    requires var live := Compaction.Live(sys.es.instances); Dealt(s.snaps, start.snaps, live, force, live.Keys)
    ensures Covers(s.snaps, sys.es.instances, force)
  {
    hide Linked, Compaction.FromInstance;
    forall id | id in Compaction.Live(sys.es.instances)
      ensures id in s.snaps
      ensures force ==> s.snaps[id] == Compaction.FromInstance(sys.es.instances[id], s.snaps[id].snapshotId)
    {
      if force {
        UpToDate(env, sys, s, id);
      }
    }
  }

  /** The ids that the loop has been through. */
  ghost function Seen(ids: seq<string>, k: nat): set<string>
    requires k <= |ids|
  {
    set n | 0 <= n < k :: ids[n]
  }

  lemma SeenNone(ids: seq<string>)
    ensures Seen(ids, 0) == {}
  {
  }

  lemma SeenStep(all: seq<Instance>, ids: seq<string>, m: map<string, Instance>, k: nat)
    requires Listed(all, ids, m) && k < |all|
    ensures |ids| == |all| && Seen(ids, k + 1) == Seen(ids, k) + {ids[k]}
    ensures ids[k] in m && all[k] == m[ids[k]] && ids[k] !in Seen(ids, k)
  {
  }

  lemma SeenAll(all: seq<Instance>, ids: seq<string>, m: map<string, Instance>)
    requires Listed(all, ids, m)
    ensures |ids| == |all| && Seen(ids, |ids|) == m.Keys
  {
  }

  /** The snapshot loop of `run_compaction` and `handle_compact`. */
  method SnapAll(engine: StateMachineEngine, snapshots: SnapshotStore, force: bool, newId: nat -> string,
                 ghost start: Compaction.Store, ghost j: nat)
    returns (created: nat, ghost s: Compaction.Store)
    requires engine.Valid() && snapshots.Valid() && start.snaps == snapshots.Latest()
    requires snapshots.index == snapshots.dir.saved && j !in start.jobs && start.entering == {}
    requires Linked(engine.env, engine.Sys(), start) && FreshIds(newId, 0, snapshots.dir.files)
    modifies snapshots, snapshots.dir
    ensures snapshots.Valid() && s.snaps == snapshots.Latest() && snapshots.index == snapshots.dir.saved
    ensures var live := Compaction.Live(engine.instances);
            && Underway(engine.env, engine.Sys(), s, start, j, force, live.Keys)
            && created == |Outdated(start, live, force, live.Keys)|
            && Dealt(s.snaps, start.snaps, live, force, live.Keys)
  {
    hide Linked, Underway, FreshIds, SnapshotStore.Valid, Compaction.Live, Compaction.FromInstance,
         WriteAheadLog.Valid, WriteAheadLog.State, Compaction.Needs, Outdated, Exactly, Listed, Seen, Dealt;
    ghost var env, sys := engine.env, engine.Sys();
    ghost var live := Compaction.Live(engine.instances);
    var all, ids := engine.GetAllInstances();
    created := 0;
    s := LoopStart(env, sys, start, j, force);
    SeenNone(ids);
    SeenAll(all, ids, live);
    NothingDealt(start.snaps, live, force);
    for k := 0 to |all|
      invariant snapshots.Valid() && s.snaps == snapshots.Latest() && FreshIds(newId, k, snapshots.dir.files)
      invariant snapshots.index == snapshots.dir.saved
      invariant Underway(env, sys, s, start, j, force, Seen(ids, k))
      invariant created == |Outdated(start, live, force, Seen(ids, k))|
      invariant Dealt(s.snaps, start.snaps, live, force, Seen(ids, k))
    {
      ghost var files := snapshots.dir.files;
      FreshIdAt(newId, k, files);
      SeenStep(all, ids, live, k);
      ghost var s' := LoopTurn(env, sys, s, start, j, force, Seen(ids, k), ids[k], newId(k));
      var needed := SnapInstance(snapshots, all[k], force, newId(k));
      NextFreshIds(newId, k, files, snapshots.dir.files);
      s := s';
      if needed {
        created := created + 1;
      }
    }
  }

  /** The last steps of a compaction: how far it may delete, the deletion, the end. */
  ghost predicate Finishing(env: Env, s: Compaction.Store, s1: Compaction.Store, s2: Compaction.Store,
                            after: Compaction.Store, j: nat, least: Option<nat>)
  {
    var a0, a1, a2 :=
      Compaction.Measure(j, least), Compaction.Drop(j, Compaction.TargetOf(least)), Compaction.End(j);
    && Compaction.Enabled(s, a0) && Compaction.Careful(s, a0) && s1 == Compaction.Next(env, s, a0)
    && Compaction.Enabled(s1, a1) && s2 == Compaction.Next(env, s1, a1)
    && Compaction.Enabled(s2, a2) && after == Compaction.Next(env, s2, a2)
  }

  /** They are enabled one after the other, and change nothing but the floor and the list of jobs. */
  lemma FinishSteps(env: Env, s: Compaction.Store, jobs: map<nat, Compaction.Job>, j: nat, job: Compaction.Job,
                    least: Option<nat>)
    returns (s1: Compaction.Store, s2: Compaction.Store, after: Compaction.Store)
    requires s.jobs == jobs[j := job] && j !in jobs && job.pending == map[] && Compaction.IsMeasuring(job)
    requires job.store == 0 && Compaction.IndexOf(s, 0) == s.snaps
    requires Compaction.IsLeast(s.snaps, least) && forall k :: k in jobs ==> jobs[k].pending == map[]
    ensures Finishing(env, s, s1, s2, after, j, least)
    ensures after.db == s.db && after.snaps == s.snaps && after.jobs == jobs && after.entering == s.entering
  {
    hide Compaction.IsLeast;
    s1 := Compaction.Next(env, s, Compaction.Measure(j, least));
    s2 := Compaction.Next(env, s1, Compaction.Drop(j, Compaction.TargetOf(least)));
    after := Compaction.Next(env, s2, Compaction.End(j));
    assert after.jobs == jobs;
  }

  lemma FinishLinked(env: Env, sys: System, s: Compaction.Store, s1: Compaction.Store, s2: Compaction.Store,
                     after: Compaction.Store, j: nat, least: Option<nat>)
    requires Linked(env, sys, s) && Finishing(env, s, s1, s2, after, j, least)
    ensures var sys' := Dropped(sys, Compaction.TargetOf(least));
            Linked(env, sys', after) && BringsBack(after.snaps, LogIn(env, sys'), sys.es.instances)
    ensures sys.wal.files != [] && Compaction.TargetOf(least) <= Last(sys.wal).id
  {
    hide Linked, Compaction.Enabled, Compaction.Next, LogOf, DropBelow, BringsBack, Compaction.Careful;
    var a0, a1, a2 :=
      Compaction.Measure(j, least), Compaction.Drop(j, Compaction.TargetOf(least)), Compaction.End(j);
    LinkedInMemory(env, sys, s, a0);
    LinkedDrop(env, sys, s1, a1);
    LinkedParts(env, sys, s1);
    DropBound(env, s1, a1);
    TopInFiles(env, sys, s1);
    var sys' := Dropped(sys, Compaction.TargetOf(least));
    EndIsCareful(s2, j);
    LinkedInMemory(env, sys', s2, a2);
    LinkedBringsBack(env, sys', after);
  }

  lemma EndIsCareful(s: Compaction.Store, j: nat)
    ensures Compaction.Careful(s, Compaction.End(j))
  {
  }

  lemma UnderwayFinish(env: Env, sys: System, s: Compaction.Store, start: Compaction.Store, j: nat, force: bool,
                       least: Option<nat>)
    returns (after: Compaction.Store)
    requires Underway(env, sys, s, start, j, force, Compaction.Live(sys.es.instances).Keys)
    requires Compaction.IsLeast(s.snaps, least) && NobodyPending(start) && j !in start.jobs
    ensures Linked(env, Dropped(sys, Compaction.TargetOf(least)), after)
    ensures after.db == start.db && after.snaps == s.snaps
    ensures after.jobs == start.jobs && after.entering == start.entering
    ensures BringsBack(s.snaps, LogIn(env, Dropped(sys, Compaction.TargetOf(least))), sys.es.instances)
    ensures sys.wal.files != [] && Compaction.TargetOf(least) <= Last(sys.wal).id
  {
    hide Linked, Compaction.IsLeast, LogOf, DropBelow, BringsBack, Compaction.Live, Compaction.Needs, Finishing;
    var live := Compaction.Live(sys.es.instances);
    assert live - live.Keys == map[];
    var s1, s2;
    s1, s2, after := FinishSteps(env, s, start.jobs, j, JobAt(start, live, force, live.Keys), least);
    FinishLinked(env, sys, s, s1, s2, after, j, least);
  }

  lemma Going(env: Env, sys: System, s: Compaction.Store, start: Compaction.Store, j: nat, force: bool)
    requires Underway(env, sys, s, start, j, force, Compaction.Live(sys.es.instances).Keys)
    ensures Linked(env, sys, s)
  {
    hide Linked, Compaction.Live;
  }

  /** There is one least offset, and there is one if there are snapshots. */
  lemma OneLeast(snaps: map<string, Compaction.Snapshot>, least: Option<nat>)
    requires Compaction.IsLeast(snaps, least)
    ensures forall m: nat :: Compaction.IsLeast(snaps, Some(m)) ==> least == Some(m)
    ensures snaps == map[] ==> least == None
  {
  }

  lemma DropNothing(files: seq<SegFile>)
    ensures DropBelow(files, 0) == files
  {
  }

  /**
   `handle_compact`, and with `force` the loop of `run_compaction`: snapshots, then deletion of the segments below the
   least snapshot. Afterwards the snapshots and the files that are left bring back what the engine holds.
   */
  method CompactLog(engine: StateMachineEngine, snapshots: SnapshotStore, force: bool, newId: nat -> string,
                    ghost start: Compaction.Store, ghost j: nat)
    returns (created: nat, deleted: nat, ghost after: Compaction.Store)
    requires engine.Valid() && snapshots.Valid() && start.snaps == snapshots.Latest()
    requires snapshots.index == snapshots.dir.saved && j !in start.jobs && NobodyPending(start) && start.entering == {}
    requires Linked(engine.env, engine.Sys(), start) && FreshIds(newId, 0, snapshots.dir.files)
    modifies snapshots, snapshots.dir, engine.wal`segments
    ensures engine.Valid() && snapshots.Valid() && engine.Tables() == old(engine.Tables())
    ensures snapshots.index == snapshots.dir.saved
    ensures deleted <= |old(engine.wal.segments)| && engine.wal.segments == old(engine.wal.segments)[deleted..]
    ensures var live := Compaction.Live(engine.instances); created == |Outdated(start, live, force, live.Keys)|
    ensures var live := Compaction.Live(engine.instances);
            && Covers(snapshots.Latest(), engine.instances, force)
            && Dealt(snapshots.Latest(), start.snaps, live, force, live.Keys)
    ensures forall m: nat :: Compaction.IsLeast(snapshots.Latest(), Some(m)) ==>
              && (forall k :: 0 <= k < deleted ==> old(engine.wal.segments)[k].id < SegmentOf(m))
              && forall k :: 0 <= k < |engine.wal.segments| ==> engine.wal.segments[k].id >= SegmentOf(m)
    ensures snapshots.Latest() == map[] ==> deleted == 0
    ensures Linked(engine.env, engine.Sys(), after) && after.snaps == snapshots.Latest() && after.jobs == start.jobs
    ensures after.db == start.db && after.entering == start.entering
    ensures BringsBack(snapshots.Latest(), LogOf(engine.env, engine.wal.State().files), engine.instances)
  {
    hide Linked, Underway, FreshIds, Compaction.Next, BringsBack, LogOf, DropBelow, SnapshotStore.Valid,
         Compaction.IsLeast, AsFiles, Opened, NobodyPending, Dealt, Covers, Outdated, Compaction.Live, SegmentOf;
    ghost var s;
    created, s := SnapAll(engine, snapshots, force, newId, start, j);
    DealtCovers(engine.env, engine.Sys(), s, start, force) by { Going(engine.env, engine.Sys(), s, start, j, force); }
    var least := snapshots.MinWalOffset();
    OneLeast(snapshots.Latest(), least);
    after := UnderwayFinish(engine.env, engine.Sys(), s, start, j, force, least);
    deleted := 0;
    DropNothing(engine.wal.State().files);
    if least.Some? {
      AsFilesAt(engine.wal.segments, |engine.wal.segments| - 1);
      deleted := engine.wal.CompactBefore(least.value);
    }
  }

  // ---------------------------------------------------------------------------------------------------------------
  // Reading pages
  // ---------------------------------------------------------------------------------------------------------------

  datatype PageFailure = MissingOffset | Unreadable(failure: ReadFailure)

  /** `handle_wal_read`: a page, and where the next one starts. */
  method HandleWalRead(wal: WriteAheadLog, from: Option<nat>, limit: Option<nat>)
    returns (r: Result<(Log, Option<nat>), PageFailure>)
    requires wal.Valid()
    ensures from.None? ==> r == Err(MissingOffset)
    ensures from.Some? ==>
              match ReadFiles(wal.env, wal.State().files, from.value, limit, [])
              case Err(e) => r == Err(Unreadable(e))
              case Ok(page) => r == Ok((page, NextOffset(page)))
    ensures from.Some? && WalInv(wal.env, wal.State()) ==>
              var page := ReadPage(LogOf(wal.env, wal.State().files), from.value, limit);
              r == Ok((page, NextOffset(page)))
  {
    hide WalInv, LogOf, WriteAheadLog.Valid, WriteAheadLog.State, ReadFiles;
    if from.None? {
      return Err(MissingOffset);
    }
    var read := wal.ReadFrom(from.value, limit);
    match read
    case Err(e) => return Err(Unreadable(e));
    case Ok(records) =>
      var next: Option<nat> := None;
      if records != [] {
        next := Some(records[|records| - 1].offset + 1);
      }
      return Ok((records, next));
  }
}
