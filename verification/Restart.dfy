/** What a restart does not bring back: idempotency keys and, sometimes, last event ids. */
module Restart {
  import opened Common
  import opened Json
  import opened Definition
  import opened Entry
  import opened Engine
  import opened EngineSafety
  import opened Compaction
  import opened Samples

  // ---------------------------------------------------------------------------------------------------------------
  // Keys
  // ---------------------------------------------------------------------------------------------------------------

  const FIRST: seq<Call> := [PutCall(1, 1), CreateCall("X", 2, 2), EventCall("X", Some("k"), 3, 3)]

  lemma RunStep(env: Env, db: Db, calls: seq<Call>, call: Call)
    ensures Run(env, db, calls + [call]) == Exec(env, Run(env, db, calls), call).0
  {
    hide Exec;
    assert (calls + [call])[..|calls|] == calls;
  }

  lemma FirstRuns(env: Env)
    ensures var db := Run(env, Db(EMPTY, []), FIRST);
            AtStart(env, db.es, "X") && CountKeyed(db.log, CacheKey("X", "k")) == 1
  {
    hide Exec, SampleMachine, Sample, CountKeyed, Commit;
    var db0 := Db(EMPTY, []);
    PutRuns(env, db0, 1, 1);
    var db1 := Exec(env, db0, PutCall(1, 1)).0;
    CreateRuns(env, db1, "X", 2, 2);
    var db2 := Exec(env, db1, CreateCall("X", 2, 2)).0;
    EventRuns(env, db2, "X", Some("k"), 3, 3);
    RunStep(env, db0, [], PutCall(1, 1));
    RunStep(env, db0, [] + [PutCall(1, 1)], CreateCall("X", 2, 2));
    RunStep(env, db0, [] + [PutCall(1, 1)] + [CreateCall("X", 2, 2)], EventCall("X", Some("k"), 3, 3));
    assert FIRST == [] + [PutCall(1, 1)] + [CreateCall("X", 2, 2)] + [EventCall("X", Some("k"), 3, 3)];
    var ck := CacheKey("X", "k");
    NoneKeyed(ck);
    CountKeyedLast([], db1.log[0], ck);
    CountKeyedLast(db1.log, db2.log[1], ck);
    var db3 := Run(env, db0, FIRST);
    CountKeyedLast(db2.log, db3.log[2], ck);
  }

  lemma NoneKeyed(ck: CacheKey)
    ensures CountKeyed([], ck) == 0
  {
  }

  /** A key that was used before a restart is written a second time after it. */
  lemma KeyWrittenAgain(env: Env)
    ensures var before := Run(env, Db(EMPTY, []), FIRST);
            var restarted := Db(Replay(env, before.log), before.log);
            var after := Exec(env, restarted, EventCall("X", Some("k"), 4, 4)).0;
            CountKeyed(after.log, CacheKey("X", "k")) == 2
  {
    hide Exec, SampleMachine, Sample, CountKeyed, Commit, Run, Replay, LogOk;
    FirstRuns(env);
    EmptyDb(env);
    ReplayRebuilds(env, Db(EMPTY, []), FIRST);
    var before := Run(env, Db(EMPTY, []), FIRST);
    var restarted := Db(Replay(env, before.log), before.log);
    assert AtStart(env, restarted.es, "X");
    ReplayHasNoCache(env, before.log);
    EventRuns(env, restarted, "X", Some("k"), 4, 4);
    var after := Exec(env, restarted, EventCall("X", Some("k"), 4, 4)).0;
    CountKeyedLast(before.log, after.log[|before.log|], CacheKey("X", "k"));
  }

  // ---------------------------------------------------------------------------------------------------------------
  // Last event ids
  // ---------------------------------------------------------------------------------------------------------------

  ghost predicate EventOf(rec: LogRecord, id: string) { rec.entry.ApplyEvent? && rec.entry.instanceId == id }

  /** The id that the instance's last event carries, if any. */
  function LastId(log: Log, id: string): Option<string> {
    if log == [] then None
    else
      var e := log[|log| - 1].entry;
      if e.ApplyEvent? && e.instanceId == id then e.eventId else LastId(log[..|log| - 1], id)
  }

  /** The last id that an event of the instance carries. */
  function KeptId(log: Log, id: string): Option<string> {
    if log == [] then None
    else
      var e := log[|log| - 1].entry;
      if e.ApplyEvent? && e.instanceId == id && e.eventId.Some? then e.eventId else KeptId(log[..|log| - 1], id)
  }

  lemma {:induction false} LiveEventId(log: Log, id: string)
    requires CreationsFirst(log) && FoldOne(None, log, id).Some?
    ensures FoldOne(None, log, id).value.lastEventId == LastId(log, id)
  {
    var before, rec := log[..|log| - 1], log[|log| - 1];
    if FoldOne(None, before, id).Some? {
      LiveEventId(before, id);
    } else {
      assert forall j :: 0 <= j < |before| ==> before[j] == log[j];
      NoEvents(before, id);
    }
  }

  lemma {:induction false} NoEvents(log: Log, id: string)
    requires forall j :: 0 <= j < |log| ==> !About(log[j].entry, id)
    ensures LastId(log, id) == None && KeptId(log, id) == None
  {
    if log == [] {
    } else {
      assert !About(log[|log| - 1].entry, id);
      NoEvents(log[..|log| - 1], id);
    }
  }

  lemma {:induction false} ReplayedEventId(env: Env, log: Log, id: string)
    requires CreationsFirst(log) && id in Replay(env, log).instances
    ensures Replay(env, log).instances[id].lastEventId == KeptId(log, id)
  {
    hide FromJson;
    var before := log[..|log| - 1];
    assert forall j :: 0 <= j < |before| ==> before[j] == log[j];
    if id in Replay(env, before).instances {
      ReplayedEventId(env, before, id);
    } else {
      NoEvents(before, id);
    }
  }

  /** The last event carries an id, or none of them ever did. */
  ghost predicate IdsKept(log: Log, id: string) {
    LastId(log, id).Some? || forall k :: 0 <= k < |log| && EventOf(log[k], id) ==> log[k].entry.eventId.None?
  }

  lemma {:induction false} IdsAgree(log: Log, id: string)
    ensures LastId(log, id).Some? ==> KeptId(log, id) == LastId(log, id)
    ensures KeptId(log, id).None? <==> forall k :: 0 <= k < |log| && EventOf(log[k], id) ==> log[k].entry.eventId.None?
  {
    if log == [] {
    } else {
      var n := |log| - 1;
      IdsAgree(log[..n], id);
      assert forall k :: 0 <= k < n ==> log[..n][k] == log[k];
    }
  }

  lemma {:induction false} RunLiveIsFold(env: Env, calls: seq<Call>)
    ensures var db := Run(env, Db(EMPTY, []), calls);
            DbInv(env, db) && CreationsFirst(db.log) && LiveIsFold(db.es.instances, db.log)
  {
    hide Decide, Commit, Replay, LogOk, FoldOne, CreationsFirst, LiveIsFold, SameTables;
    var db := Run(env, Db(EMPTY, []), calls);
    EmptyDb(env);
    ReplayRebuilds(env, Db(EMPTY, []), calls);
    if calls == [] {
      NothingYet();
    } else {
      var before, call := calls[..|calls| - 1], calls[|calls| - 1];
      RunLiveIsFold(env, before);
      var mid := Run(env, Db(EMPTY, []), before);
      var d := Decide(env, mid.es, call.op);
      if d.Log? && call.wal.Ok? {
        var rec := LogRecord(call.wal.value.0, call.wal.value.1, d.entry);
        DecideAdmissible(env, mid.es, call.op);
        CreationsFirstLast(env, mid, rec);
        LiveIsFoldLast(env, mid, rec);
      }
    }
  }

  lemma NothingYet()
    ensures CreationsFirst([]) && LiveIsFold(EMPTY.instances, [])
  {
  }

  /**
   After any run, replaying the log rebuilds an instance's last event id if and only if its last event carries one, or
   none of its events ever did.
   */
  lemma EventIdRebuilt(env: Env, calls: seq<Call>, id: string)
    requires id in Run(env, Db(EMPTY, []), calls).es.instances
    ensures var db := Run(env, Db(EMPTY, []), calls);
            && id in Replay(env, db.log).instances
            && (db.es.instances[id].lastEventId == Replay(env, db.log).instances[id].lastEventId <==> IdsKept(db.log, id))
  {
    hide Run, Replay, FoldOne, LogOk, CreationsFirst;
    RunLiveIsFold(env, calls);
    var db := Run(env, Db(EMPTY, []), calls);
    assert At(db.es.instances, id) == FoldOne(None, db.log, id);
    LiveEventId(db.log, id);
    ReplayedEventId(env, db.log, id);
    IdsAgree(db.log, id);
  }
}
