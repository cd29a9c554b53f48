/**
 The snapshot store: snapshot files, and an index with the newest one of each instance. Every store keeps the index in
 memory and writes all of it to its directory; two stores on one directory do not see each other's entries.
 */
module Snapshots {
  import opened Common
  import opened Engine
  import opened Compaction

  datatype SnapshotMeta = SnapshotMeta(snapshotId: string, instanceId: string, walOffset: nat)

  /** Each index entry stands under its instance and describes a file of that instance. */
  ghost predicate Describes(index: map<string, SnapshotMeta>, files: map<string, Snapshot>) {
    forall id :: id in index ==>
      && index[id].instanceId == id && index[id].snapshotId in files
      && files[index[id].snapshotId].instanceId == id
      && files[index[id].snapshotId].walOffset == index[id].walOffset
  }

  /** A directory on disk: snapshot files and `index.json`. */
  class SnapshotDir {
    var files: map<string, Snapshot>
    var saved: map<string, SnapshotMeta>

    constructor ()
      ensures files == map[] && saved == map[]
    {
      files, saved := map[], map[];
    }
  }

  class SnapshotStore {
    const dir: SnapshotDir
    var index: map<string, SnapshotMeta>

    ghost predicate Valid()
      reads this, dir
    {
      Describes(index, dir.files)
    }

    /** The snapshots that recovery loads. */
    ghost function Latest(): map<string, Snapshot>
      requires Valid()
      reads this, dir
    {
      map id | id in index :: dir.files[index[id].snapshotId]
    }

    /** `open` loads the index that was saved last. */
    constructor Open(dir: SnapshotDir)
      requires Describes(dir.saved, dir.files)
      ensures this.dir == dir && Valid() && index == dir.saved
    {
      this.dir := dir;
      index := dir.saved;
    }

    /** Whether a snapshot id is free for an instance: no other instance's newest snapshot has it. */
    ghost predicate FreeFor(snapshotId: string, instanceId: string)
      reads this
    {
      forall id :: id in index && index[id].snapshotId == snapshotId ==> id == instanceId
    }

    /**
     `create_snapshot`: replaces what recovery loads for this instance, and for no other if the id is free. The index
     on disk becomes the one of this store, whatever was there.
     */
    method CreateSnapshot(snapshot: Snapshot) returns (meta: SnapshotMeta)
      requires Valid()
      modifies this, dir
      ensures meta == SnapshotMeta(snapshot.snapshotId, snapshot.instanceId, snapshot.walOffset)
      ensures index == old(index)[snapshot.instanceId := meta]
      ensures dir.files == old(dir.files)[snapshot.snapshotId := snapshot] && dir.saved == index
      ensures old(FreeFor(snapshot.snapshotId, snapshot.instanceId)) ==>
                Valid() && Latest() == old(Latest())[snapshot.instanceId := snapshot]
    {
      dir.files := dir.files[snapshot.snapshotId := snapshot];
      meta := SnapshotMeta(snapshot.snapshotId, snapshot.instanceId, snapshot.walOffset);
      index := index[snapshot.instanceId := meta];
      dir.saved := index;
    }

    /** `get_snapshot_meta`. */
    function GetSnapshotMeta(instanceId: string): (r: Option<SnapshotMeta>)
      requires Valid()
      reads this, dir
      ensures r.Some? <==> instanceId in Latest()
      ensures r.Some? ==> r.value.walOffset == Latest()[instanceId].walOffset
    {
      if instanceId in index then Some(index[instanceId]) else None
    }

    /** `min_wal_offset`. */
    method MinWalOffset() returns (least: Option<nat>)
      requires Valid()
      ensures IsLeast(Latest(), least)
    {
      hide IsLeast;
      least := None;
      NoLeast();
      var rest := index.Keys;
      ghost var seen: map<string, Snapshot> := map[];
      while rest != {}
        invariant rest <= index.Keys && IsLeast(seen, least)
        invariant seen == map id | id in index && id !in rest :: Latest()[id]
        decreases |rest|
      {
        var id :| id in rest;
        rest := rest - {id};
        var offset := index[id].walOffset;
        ghost var before := seen;
        seen := seen[id := Latest()[id]];
        LeastStep(before, least, id, seen[id]);
        if least.None? || offset < least.value {
          least := Some(offset);
        }
      }
      assert seen == Latest();
    }
  }

  lemma NoLeast()
    ensures IsLeast(map[], None)
  {
  }

  lemma LeastStep(snaps: map<string, Snapshot>, least: Option<nat>, id: string, snap: Snapshot)
    requires IsLeast(snaps, least) && id !in snaps
    ensures IsLeast(snaps[id := snap],
                    if least.None? || snap.walOffset < least.value then Some(snap.walOffset) else least)
  {
    var more := snaps[id := snap];
    assert id in more && more[id].walOffset == snap.walOffset;
    if least.Some? {
      var other :| other in snaps && snaps[other].walOffset == least.value;
      assert other in more && more[other].walOffset == least.value;
    }
  }
}
