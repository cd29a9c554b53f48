/** What every log and every run of the engine satisfies: transition chains, and idempotency keys. */
module EngineSafety {
  import opened Common
  import opened Json
  import opened Guard
  import opened Definition
  import opened Entry
  import opened Engine

  /** The entry changes the instance. */
  predicate About(e: WalEntry, id: string) {
    (e.CreateInstance? || e.ApplyEvent? || e.DeleteInstance?) && e.instanceId == id
  }

  function At<T>(m: map<string, T>, id: string): Option<T> { if id in m then Some(m[id]) else None }

  // ---------------------------------------------------------------------------------------------------------------
  // Chains
  // ---------------------------------------------------------------------------------------------------------------

  predicate CreatesId(e: WalEntry, id: string) { e.CreateInstance? && e.instanceId == id }

  /** The entry fixes the state and context of the instance. */
  predicate Moves(e: WalEntry, id: string) { (e.CreateInstance? || e.ApplyEvent?) && e.instanceId == id }

  function StateAfter(e: WalEntry): string
    requires e.CreateInstance? || e.ApplyEvent?
  {
    if e.CreateInstance? then e.initialState else e.toState
  }

  function CtxAfter(e: WalEntry): Value
    requires e.CreateInstance? || e.ApplyEvent?
  {
    if e.CreateInstance? then e.initialCtx else e.ctx
  }

  /** The last record that moved the instance. */
  function LastMove(log: Log, id: string): (j: Option<nat>)
    ensures j.Some? ==> j.value < |log| && Moves(log[j.value].entry, id)
    ensures j.Some? ==> forall k :: j.value < k < |log| ==> !Moves(log[k].entry, id)
    ensures j.None? ==> forall k :: 0 <= k < |log| ==> !Moves(log[k].entry, id)
  {
    if log == [] then None
    else if Moves(log[|log| - 1].entry, id) then Some(|log| - 1)
    else LastMove(log[..|log| - 1], id)
  }

  /** The record that created the instance. */
  function Creation(log: Log, id: string): (c: Option<nat>)
    ensures c.Some? ==> c.value < |log| && CreatesId(log[c.value].entry, id)
    ensures c.None? ==> forall k :: 0 <= k < |log| ==> !CreatesId(log[k].entry, id)
  {
    if log == [] then None
    else if CreatesId(log[|log| - 1].entry, id) then Some(|log| - 1)
    else Creation(log[..|log| - 1], id)
  }

  /** An instance in the tables is what the log's records for it say. */
  ghost predicate Traced(es: EngineState, log: Log, id: string) {
    var j, c := LastMove(log, id), Creation(log, id);
    && (id in es.instances <==> j.Some?) && (j.Some? <==> c.Some?)
    && (j.Some? ==>
          var i, move, made := es.instances[id], log[j.value].entry, log[c.value].entry;
          && i.state == StateAfter(move) && i.ctx == CtxAfter(move)
          && i.machine == made.machine && i.version == made.version)
  }

  lemma {:induction false} ReplayIsTraced(env: Env, log: Log, id: string)
    requires LogOk(env, log)
    ensures Traced(Replay(env, log), log, id)
  {
    hide FromJson, AdmissibleApply;
    if log == [] {
    } else {
      var before := log[..|log| - 1];
      ReplayIsTraced(env, before, id);
      assert LastMove(log, id).Some? && LastMove(log, id).value < |before| ==>
               log[LastMove(log, id).value] == before[LastMove(log, id).value];
    }
  }

  lemma {:induction false} LogOkPrefix(env: Env, log: Log, k: nat)
    requires LogOk(env, log) && k <= |log|
    ensures LogOk(env, log[..k])
    ensures k < |log| ==> Admissible(env, Replay(env, log[..k]), log[k].entry)
  {
    hide Admissible, Replay;
    if k < |log| {
      var before := log[..|log| - 1];
      if k == |log| - 1 {
        assert log[..k] == before;
      } else {
        LogOkPrefix(env, before, k);
        assert before[..k] == log[..k];
      }
    } else {
      assert log[..k] == log;
    }
  }

  /** Definitions are never changed or lost. */
  lemma {:induction false} DefsGrow(env: Env, log: Log, k: nat)
    requires k <= |log|
    ensures var a, b := Replay(env, log[..k]).defs, Replay(env, log).defs;
            forall key :: key in a ==> key in b && b[key] == a[key]
  {
    hide FromJson;
    if k == |log| {
      assert log[..k] == log;
    } else {
      var before := log[..|log| - 1];
      DefsGrow(env, before, k);
      assert before[..k] == log[..k];
    }
  }

  ghost predicate AllClosed(defs: map<MachineKey, Machine>) {
    forall key :: key in defs ==> Closed(defs[key])
  }

  lemma {:induction false} DefsClosed(env: Env, log: Log)
    ensures AllClosed(Replay(env, log).defs)
  {
    hide FromJson, Closed;
    if log == [] {
    } else {
      DefsClosed(env, log[..|log| - 1]);
      var e := log[|log| - 1].entry;
      if e.PutMachine? && FromJson(env.checksum, e.machine, e.version, e.definition).Ok? {
        FromJsonClosed(env.checksum, e.machine, e.version, e.definition);
      }
    }
  }

  /** A creation comes before anything else of its instance and starts in its machine's initial state. */
  ghost predicate GoodCreation(defs: map<MachineKey, Machine>, log: Log, k: nat)
    requires k < |log| && log[k].entry.CreateInstance?
  {
    var e := log[k].entry;
    var key := MachineKey(e.machine, e.version);
    && LastMove(log[..k], e.instanceId).None?
    && key in defs && e.initialState == defs[key].initial && e.initialState in defs[key].states
  }

  /**
   An event record continues its instance's path: from the state and context of the instance's previous record, by a
   declared transition of the instance's machine whose guard held on that context, to the merged context.
   */
  ghost predicate GoodEvent(defs: map<MachineKey, Machine>, log: Log, k: nat)
    requires k < |log| && log[k].entry.ApplyEvent?
  {
    var e := log[k].entry;
    var j, c := LastMove(log[..k], e.instanceId), Creation(log[..k], e.instanceId);
    && j.Some? && c.Some?
    && var move, made := log[j.value].entry, log[c.value].entry;
       && e.fromState == StateAfter(move) && e.ctx == Merge(CtxAfter(move), e.payload)
       && MachineKey(made.machine, made.version) in defs
       && var m := defs[MachineKey(made.machine, made.version)];
          && e.fromState in m.states && e.toState in m.states
          && var t := GetTransition(m, e.fromState, e.event);
             t.Some? && t.value.to == e.toState && Holds(t.value.guard, CtxAfter(move))
  }

  /** Chain safety: every record of a log the engine can write. */
  lemma ChainSafety(env: Env, log: Log, k: nat)
    requires LogOk(env, log) && k < |log|
    ensures log[k].entry.CreateInstance? ==> GoodCreation(Replay(env, log).defs, log, k)
    ensures log[k].entry.ApplyEvent? ==> GoodEvent(Replay(env, log).defs, log, k)
  {
    hide Replay, LogOk, LastMove, Creation, Holds;
    var before, e := log[..k], log[k].entry;
    LogOkPrefix(env, log, k);
    DefsGrow(env, log, k);
    DefsClosed(env, log);
    if e.CreateInstance? || e.ApplyEvent? {
      ReplayIsTraced(env, before, e.instanceId);
    }
  }

  /** Chain safety over runs: whatever was called, the log that results is safe throughout. */
  lemma RunsAreChainSafe(env: Env, calls: seq<Call>, k: nat)
    requires k < |Run(env, Db(EMPTY, []), calls).log|
    ensures var db := Run(env, Db(EMPTY, []), calls);
            && (db.log[k].entry.CreateInstance? ==> GoodCreation(db.es.defs, db.log, k))
            && (db.log[k].entry.ApplyEvent? ==> GoodEvent(db.es.defs, db.log, k))
  {
    hide Run, GoodCreation, GoodEvent, LogOk, Replay;
    EmptyDb(env);
    ReplayRebuilds(env, Db(EMPTY, []), calls);
    ChainSafety(env, Run(env, Db(EMPTY, []), calls).log, k);
  }

  // ---------------------------------------------------------------------------------------------------------------
  // Idempotency keys
  // ---------------------------------------------------------------------------------------------------------------

  predicate Keyed(rec: LogRecord, ck: CacheKey) {
    rec.entry.ApplyEvent? && rec.entry.instanceId == ck.instanceId && rec.entry.idempotencyKey == Some(ck.key)
  }

  function CountKeyed(log: Log, ck: CacheKey): nat {
    if log == [] then 0
    else CountKeyed(log[..|log| - 1], ck) + if Keyed(log[|log| - 1], ck) then 1 else 0
  }

  /** For the records an engine wrote since it started: one per cached key, holding the cached result. */
  ghost predicate CacheInv(es: EngineState, gained: Log) {
    && (forall ck :: CountKeyed(gained, ck) == if ck in es.cache then 1 else 0)
    && (forall ck :: ck in es.cache ==>
          exists i :: 0 <= i < |gained| && Keyed(gained[i], ck) && es.cache[ck] == ResultOf(gained[i]))
  }

  /** What one call may add to the log. */
  function GainOf(env: Env, db: Db, call: Call): Log {
    match Decide(env, db.es, call.op)
    case Log(entry) => (match call.wal case Ok((s, o)) => [LogRecord(s, o, entry)] case Err(_) => [])
    case _ => []
  }

  lemma ExecGains(env: Env, db: Db, call: Call)
    ensures Exec(env, db, call).0.log == db.log + GainOf(env, db, call)
  {
    hide Decide, Commit;
    assert db.log + [] == db.log;
  }

  lemma CountKeyedLast(log: Log, rec: LogRecord, ck: CacheKey)
    ensures CountKeyed(log + [rec], ck) == CountKeyed(log, ck) + if Keyed(rec, ck) then 1 else 0
  {
    assert (log + [rec])[..|log|] == log;
  }

  /** A call that writes an event record with a key did not find the key cached, and caches its result under it. */
  lemma ExecCaches(env: Env, db: Db, call: Call)
    requires GainOf(env, db, call) != []
    ensures var rec, after := GainOf(env, db, call)[0], Exec(env, db, call).0.es;
            && GainOf(env, db, call) == [rec]
            && (forall ck :: Keyed(rec, ck) ==>
                  ck !in db.es.cache && after.cache == db.es.cache[ck := ResultOf(rec)])
            && ((forall ck :: !Keyed(rec, ck)) ==> after.cache == db.es.cache)
  {
    hide FromJson, Holds, GetTransition;
    var rec := GainOf(env, db, call)[0];
    if rec.entry.ApplyEvent? && rec.entry.idempotencyKey.Some? {
      assert Keyed(rec, CacheKey(rec.entry.instanceId, rec.entry.idempotencyKey.value));
    }
  }

  lemma ExecKeepsCache(env: Env, db: Db, gained: Log, call: Call)
    requires CacheInv(db.es, gained)
    ensures CacheInv(Exec(env, db, call).0.es, gained + GainOf(env, db, call))
  {
    hide Decide, Commit;
    var gain := GainOf(env, db, call);
    if gain == [] {
      assert gained + gain == gained;
    } else {
      ExecCaches(env, db, call);
      var rec, after := gain[0], Exec(env, db, call).0.es;
      forall ck ensures CountKeyed(gained + [rec], ck) == if ck in after.cache then 1 else 0 {
        CountKeyedLast(gained, rec, ck);
        assert CountKeyed(gained, ck) == if ck in db.es.cache then 1 else 0;
        CacheAfter(db.es, after, rec, ck);
      }
      forall ck | ck in after.cache
        ensures exists i :: 0 <= i < |gained + [rec]| && Keyed((gained + [rec])[i], ck)
                            && after.cache[ck] == ResultOf((gained + [rec])[i])
      {
        if Keyed(rec, ck) {
          assert (gained + [rec])[|gained|] == rec;
        } else {
          CacheAfter(db.es, after, rec, ck);
          var i :| 0 <= i < |gained| && Keyed(gained[i], ck) && db.es.cache[ck] == ResultOf(gained[i]);
          assert (gained + [rec])[i] == gained[i];
        }
      }
    }
  }

  lemma CacheAfter(es: EngineState, after: EngineState, rec: LogRecord, ck: CacheKey)
    requires forall c :: Keyed(rec, c) ==> c !in es.cache && after.cache == es.cache[c := ResultOf(rec)]
    requires (forall c :: !Keyed(rec, c)) ==> after.cache == es.cache
    ensures if Keyed(rec, ck) then ck !in es.cache && ck in after.cache
            else (ck in after.cache <==> ck in es.cache) && (ck in es.cache ==> after.cache[ck] == es.cache[ck])
  {
    if !Keyed(rec, ck) && exists c :: Keyed(rec, c) {
      var c :| Keyed(rec, c);
      assert c != ck;
    }
  }

  /**
   Over any run of one engine, started on any log with an empty cache, at most one event record per instance and key
   is written, and the cache holds the result of exactly that record.
   */
  lemma {:induction false} OneRecordPerKey(env: Env, db: Db, calls: seq<Call>)
    requires db.es.cache == map[]
    ensures var end := Run(env, db, calls);
            && |db.log| <= |end.log| && end.log[..|db.log|] == db.log
            && CacheInv(end.es, end.log[|db.log|..])
  {
    hide Exec, CacheInv;
    if calls == [] {
      assert db.log[|db.log|..] == [] && db.log[..|db.log|] == db.log;
      EmptyCache(db.es);
    } else {
      var mid, call := Run(env, db, calls[..|calls| - 1]), calls[|calls| - 1];
      OneRecordPerKey(env, db, calls[..|calls| - 1]);
      ExecKeepsCache(env, mid, mid.log[|db.log|..], call);
      ExecGains(env, mid, call);
      var end := Exec(env, mid, call).0;
      assert end.log[|db.log|..] == mid.log[|db.log|..] + GainOf(env, mid, call);
      assert end.log[..|db.log|] == mid.log[..|db.log|];
    }
  }

  lemma EmptyCache(es: EngineState)
    requires es.cache == map[]
    ensures CacheInv(es, [])
  {
  }

  lemma ExecKeepsEntry(env: Env, db: Db, call: Call, ck: CacheKey)
    requires ck in db.es.cache
    ensures var after := Exec(env, db, call).0.es; ck in after.cache && after.cache[ck] == db.es.cache[ck]
  {
    hide Decide, Commit;
    if GainOf(env, db, call) != [] {
      ExecCaches(env, db, call);
      CacheAfter(db.es, Exec(env, db, call).0.es, GainOf(env, db, call)[0], ck);
    }
  }

  lemma {:induction false} RunKeepsEntry(env: Env, db: Db, calls: seq<Call>, ck: CacheKey)
    requires ck in db.es.cache
    ensures var after := Run(env, db, calls).es; ck in after.cache && after.cache[ck] == db.es.cache[ck]
  {
    hide Exec;
    if calls == [] {
    } else {
      RunKeepsEntry(env, db, calls[..|calls| - 1], ck);
      ExecKeepsEntry(env, Run(env, db, calls[..|calls| - 1]), calls[|calls| - 1], ck);
    }
  }

  predicate CarriesKey(op: Op, ck: CacheKey) {
    op.Apply? && op.id == ck.instanceId && op.key == Some(ck.key)
  }

  /**
   The first result stands: once a call with an idempotency key succeeded, then after any calls whatever every further
   call with that key returns the same result and changes neither the log nor the engine.
   */
  lemma FirstResultStands(env: Env, db: Db, first: Call, between: seq<Call>, again: Call, ck: CacheKey)
    requires CarriesKey(first.op, ck) && CarriesKey(again.op, ck)
    requires Exec(env, db, first).1.ApplyOk?
    ensures var later := Run(env, Exec(env, db, first).0, between);
            Exec(env, later, again) == (later, Exec(env, db, first).1)
  {
    FirstIsCached(env, db, first, ck);
    var after := Exec(env, db, first).0;
    hide Exec, Run;
    RunKeepsEntry(env, after, between, ck);
    CachedAnswer(env, Run(env, after, between), again, ck);
  }

  lemma FirstIsCached(env: Env, db: Db, first: Call, ck: CacheKey)
    requires CarriesKey(first.op, ck) && Exec(env, db, first).1.ApplyOk?
    ensures var (after, r) := Exec(env, db, first); ck in after.es.cache && r == ApplyOk(after.es.cache[ck])
  {
    hide FromJson, Holds, GetTransition;
  }

  lemma CachedAnswer(env: Env, db: Db, call: Call, ck: CacheKey)
    requires CarriesKey(call.op, ck) && ck in db.es.cache
    ensures Exec(env, db, call) == (db, ApplyOk(db.es.cache[ck]))
  {
    hide FromJson;
  }

  lemma {:induction false} ReplayHasNoCache(env: Env, log: Log)
    ensures Replay(env, log).cache == map[]
  {
    hide FromJson;
    if log == [] {
    } else {
      ReplayHasNoCache(env, log[..|log| - 1]);
    }
  }

  /**
   The promise ends with the engine: after a restart a call is decided by the instance alone, whatever its key, so a
   key already in the log is written again whenever its event is still accepted.
   */
  lemma RestartForgetsKeys(env: Env, log: Log, op: Op)
    requires op.Apply? && op.id in Replay(env, log).instances
    ensures var es := Replay(env, log); Decide(env, es, op) == DecideApplyOn(es, es.instances[op.id], op)
  {
    hide Replay, DecideApplyOn;
    ReplayHasNoCache(env, log);
  }
}
