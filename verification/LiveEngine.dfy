/** The state machine engine as an object: its tables, updated in place, over its write-ahead log. */
module LiveEngine {
  import opened Common
  import opened Json
  import opened Guard
  import opened Definition
  import opened Record
  import opened Segment
  import opened Entry
  import opened Offset
  import opened Wal
  import opened Paging
  import opened LiveWal
  import opened Engine
  import opened Crash
  import Compaction

  lemma WholeLog(log: Log)
    ensures ReadPage(log, 0, None) == log
  {
    FromEverything(log, 0);
  }

  lemma ReplayStep(env: Env, log: Log, i: nat)
    requires i < |log|
    ensures Replay(env, log[..i + 1]) == ReplayEntry(env, Replay(env, log[..i]), log[i])
  {
    hide ReplayEntry;
    assert log[..i + 1][..i] == log[..i];
  }

  /** The values of a map, each once, with their keys beside them. */
  ghost predicate Listed(all: seq<Instance>, ids: seq<string>, m: map<string, Instance>) {
    && |ids| == |all|
    && (forall k :: 0 <= k < |ids| ==> ids[k] in m && all[k] == m[ids[k]])
    && (forall j, k :: 0 <= j < k < |ids| ==> ids[j] != ids[k])
    && (forall id :: id in m ==> id in ids)
  }

  /** The values of a map, as many as there are. */
  ghost predicate Exactly(all: seq<Instance>, m: map<string, Instance>) {
    |all| == |m| && forall i :: i in all <==> i in m.Values
  }

  lemma ListedValues(all: seq<Instance>, ids: seq<string>, m: map<string, Instance>)
    requires Listed(all, ids, m)
    ensures Exactly(all, m)
  {
    DistinctCount(ids);
    assert (set id | id in ids) == m.Keys;
    forall i | i in m.Values ensures i in all {
      var id :| id in m && m[id] == i;
      var k :| 0 <= k < |ids| && ids[k] == id;
      assert all[k] == i;
    }
  }

  lemma {:induction false} DistinctCount(ids: seq<string>)
    requires forall j, k :: 0 <= j < k < |ids| ==> ids[j] != ids[k]
    ensures |set id | id in ids| == |ids|
  {
    if ids == [] {
    } else {
      var n := |ids| - 1;
      DistinctCount(ids[..n]);
      assert (set id | id in ids) == (set id | id in ids[..n]) + {ids[n]};
    }
  }

  class StateMachineEngine {
    const env: Env
    const wal: WriteAheadLog
    var definitions: map<MachineKey, Machine>
    var instances: map<string, Instance>
    var cache: map<CacheKey, ApplyResult>

    ghost predicate Valid()
      reads this, wal, wal.segments
    {
      wal.Valid() && wal.env == env
    }

    function Tables(): EngineState
      reads this
    {
      EngineState(definitions, instances, cache)
    }

    ghost function Sys(): System
      reads this, wal, wal.segments
    {
      System(wal.State(), Tables())
    }

    constructor (wal: WriteAheadLog)
      ensures this.wal == wal && this.env == wal.env && Tables() == EMPTY
    {
      this.env, this.wal, definitions, instances, cache := wal.env, wal, map[], map[], map[];
    }

    /** `replay_entry`. */
    method Redo(rec: LogRecord)
      modifies this
      ensures Tables() == ReplayEntry(env, old(Tables()), rec)
    {
      match rec.entry
      case PutMachine(name, version, _, json) =>
        var key := MachineKey(name, version);
        if !json.Null? && key !in definitions {
          match FromJson(env.checksum, name, version, json)
          case Ok(m) => definitions := definitions[key := m];
          case Err(_) =>
        }
      case CreateInstance(id, machine, version, initialState, initialCtx, _) =>
        if id !in instances {
          instances := instances[id := NewInstance(id, machine, version, initialState, initialCtx, rec.offset)];
        }
      case ApplyEvent(id, _, _, toState, _, ctx, eventId, _) =>
        if id in instances {
          var i := instances[id].(state := toState, ctx := ctx, lastWalOffset := rec.offset);
          if eventId.Some? {
            i := i.(lastEventId := eventId);
          }
          instances := instances[id := i];
        }
      case DeleteInstance(id, _) =>
        if id in instances {
          instances := instances[id := instances[id].(lifecycle := Deleted, lastWalOffset := rec.offset)];
        }
      case SnapshotMark(_, _, _, _) =>
      case Checkpoint(_) =>
    }

    /** `put_machine`. */
    method PutMachine(name: string, version: nat, json: Value) returns (r: Response)
      requires Valid()
      modifies this, wal, wal.segments
      ensures Valid() && (Sys(), r) == DoOp(env, old(Sys()), Put(name, version, json))
    {
      hide FromJson, Wal.Append, PlacedIn, WriteAheadLog.State, WriteAheadLog.Valid;
      var key := MachineKey(name, version);
      match FromJson(env.checksum, name, version, json)
      case Err(e) => return Failed(BadDefinition(e));
      case Ok(m) =>
        if key in definitions {
          if definitions[key].checksum == m.checksum {
            return PutOk(definitions[key].checksum, false);
          }
          return Failed(MachineVersionExists);
        }
        var written := wal.Append(WalEntry.PutMachine(name, version, m.checksum, json));
        match written
        case Err(e) => return Failed(WalFailed(e));
        case Ok(_) =>
          definitions := definitions[key := m];
          return PutOk(m.checksum, true);
    }

    /** `create_instance`. */
    method CreateInstance(id: string, machine: string, version: nat, ctx: Value, idempotencyKey: Option<string>)
      returns (r: Response)
      requires Valid()
      modifies this, wal, wal.segments
      ensures Valid() && (Sys(), r) == DoOp(env, old(Sys()), Create(id, machine, version, ctx, idempotencyKey))
    {
      hide FromJson, Wal.Append, PlacedIn, WriteAheadLog.State, WriteAheadLog.Valid;
      if idempotencyKey.Some? && CacheKey(id, idempotencyKey.value) in cache && id in instances {
        return CreateOk(instances[id], instances[id].lastWalOffset);
      }
      if id in instances {
        return Failed(InstanceExists);
      }
      var key := MachineKey(machine, version);
      if key !in definitions {
        return Failed(MachineVersionNotFound);
      }
      var initial := definitions[key].initial;
      var written := wal.Append(WalEntry.CreateInstance(id, machine, version, initial, ctx, idempotencyKey));
      match written
      case Err(e) => return Failed(WalFailed(e));
      case Ok((sequence, offset)) =>
        var instance := NewInstance(id, machine, version, initial, ctx, offset);
        instances := instances[id := instance];
        return CreateOk(instance, sequence);
    }

    /** `apply_event`. */
    method ApplyEvent(id: string, event: string, payload: Value, expectedState: Option<string>,
                      expectedOffset: Option<nat>, eventId: Option<string>, idempotencyKey: Option<string>)
      returns (r: Response)
      requires Valid()
      modifies this, wal, wal.segments
      ensures Valid()
      ensures (Sys(), r)
           == DoOp(env, old(Sys()), Apply(id, event, payload, expectedState, expectedOffset, eventId, idempotencyKey))
    {
      hide FromJson, Wal.Append, PlacedIn, WriteAheadLog.State, WriteAheadLog.Valid, GetTransition, Holds, Merge;
      if idempotencyKey.Some? && CacheKey(id, idempotencyKey.value) in cache {
        return ApplyOk(cache[CacheKey(id, idempotencyKey.value)]);
      }
      if id !in instances {
        return Failed(InstanceNotFound);
      }
      var i := instances[id];
      if expectedState.Some? && i.state != expectedState.value {
        return Failed(StateConflict(expectedState.value, i.state));
      }
      if expectedOffset.Some? && i.lastWalOffset != expectedOffset.value {
        return Failed(WalOffsetConflict(expectedOffset.value, i.lastWalOffset));
      }
      if KeyOf(i) !in definitions {
        return Failed(MachineVersionNotFound);
      }
      match GetTransition(definitions[KeyOf(i)], i.state, event)
      case None => return Failed(InvalidTransition);
      case Some(target) =>
        if !Holds(target.guard, i.ctx) {
          return Failed(GuardFailed);
        }
        var ctx := Merge(i.ctx, payload);
        var entry :=
          WalEntry.ApplyEvent(id, event, i.state, target.to, payload, ctx, eventId, idempotencyKey);
        var written := wal.Append(entry);
        match written
        case Err(e) => return Failed(WalFailed(e));
        case Ok((sequence, offset)) =>
          var result := ApplyResult(i.state, target.to, ctx, offset, sequence, true);
          instances := instances[id := i.(state := target.to, ctx := ctx, lastEventId := eventId, lastWalOffset := offset)];
          if idempotencyKey.Some? {
            cache := cache[CacheKey(id, idempotencyKey.value) := result];
          }
          return ApplyOk(result);
    }

    /** `delete_instance`. */
    method DeleteInstance(id: string, idempotencyKey: Option<string>) returns (r: Response)
      requires Valid()
      modifies this, wal, wal.segments
      ensures Valid() && (Sys(), r) == DoOp(env, old(Sys()), Delete(id, idempotencyKey))
    {
      hide FromJson, Wal.Append, PlacedIn, WriteAheadLog.State, WriteAheadLog.Valid;
      if id !in instances {
        return Failed(InstanceNotFound);
      }
      if instances[id].lifecycle.Deleted? {
        return DeleteOk(instances[id].lastWalOffset);
      }
      var written := wal.Append(WalEntry.DeleteInstance(id, idempotencyKey));
      match written
      case Err(e) => return Failed(WalFailed(e));
      case Ok((_, offset)) =>
        instances := instances[id := instances[id].(lifecycle := Deleted, lastWalOffset := offset)];
        return DeleteOk(offset);
    }

    /** `get_all_instances`: each instance that is not deleted, once, in whatever order the map yields them. */
    method GetAllInstances() returns (all: seq<Instance>, ghost ids: seq<string>)
      ensures Listed(all, ids, Compaction.Live(instances))
      ensures Exactly(all, Compaction.Live(instances))
    {
      all, ids := [], [];
      var rest := instances.Keys;
      while rest != {}
        invariant rest <= instances.Keys
        invariant Listed(all, ids, Compaction.Live(map id | id in instances && id !in rest :: instances[id]))
        decreases |rest|
      {
        var id :| id in rest;
        rest := rest - {id};
        if instances[id].lifecycle.Active? {
          all, ids := all + [instances[id]], ids + [id];
        }
      }
      assert instances == map id | id in instances && id !in rest :: instances[id];
      ListedValues(all, ids, Compaction.Live(instances));
    }
  }

  /** `with_wal`: a new engine that replays the whole log. */
  method WithWal(wal: WriteAheadLog) returns (r: Result<StateMachineEngine, ReadFailure>)
    requires wal.Valid()
    ensures r.Ok? ==> fresh(r.value) && r.value.wal == wal && r.value.Valid()
    ensures match ReadFiles(wal.env, wal.State().files, 0, None, [])
            case Err(e) => r == Err(e)
            case Ok(entries) => r.Ok? && r.value.Tables() == Replay(wal.env, entries)
    ensures WalInv(wal.env, wal.State()) ==>
              r.Ok? && r.value.Tables() == Replay(wal.env, LogOf(wal.env, wal.State().files))
  {
    hide WalInv, LogOf, ReadPage, Replay, ReplayEntry, WriteAheadLog.Valid, WriteAheadLog.State, ReadFiles;
    var read := wal.ReadFrom(0, None);
    match read
    case Err(e) => return Err(e);
    case Ok(entries) =>
      WholeLog(LogOf(wal.env, wal.State().files));
      var engine := new StateMachineEngine(wal);
      NothingReplayed(wal.env, entries);
      for i := 0 to |entries|
        invariant fresh(engine) && engine.Tables() == Replay(wal.env, entries[..i])
      {
        ReplayStep(wal.env, entries, i);
        engine.Redo(entries[i]);
      }
      assert entries[..|entries|] == entries;
      return Ok(engine);
  }

  lemma NothingReplayed(env: Env, log: Log)
    ensures Replay(env, log[..0]) == EMPTY
  {
  }
}
