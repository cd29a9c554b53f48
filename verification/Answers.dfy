/**
 What callers may rely on in an engine's answers: which events it accepts, that expected offsets prevent lost updates,
 that a machine and a deletion stand once they are made, and that answers say what has become of the instance.
 */
module Answers {
  import opened Common
  import opened Json
  import opened Guard
  import opened GuardLaws
  import opened Definition
  import opened Entry
  import opened Engine
  import opened EngineSafety
  import opened Histories

  // ---------------------------------------------------------------------------------------------------------------
  // Which events are accepted
  // ---------------------------------------------------------------------------------------------------------------

  /** The definition declares a transition from this state for this event. */
  ghost predicate Declares(raw: Raw, state: string, event: string) {
    exists j :: 0 <= j < |raw.transitions| && state in raw.transitions[j].from && raw.transitions[j].event == event
  }

  /** Some transition of the definition leads this way and its guard text, if it has one, holds. */
  ghost predicate LeadsTo(raw: Raw, state: string, event: string, to: string, ctx: Value) {
    exists j: nat :: Permits(raw, j, state, event, to, ctx)
  }

  /** No pair of source and event is declared twice, so a search finds the one there is. */
  lemma {:induction false} SearchFindsTheOne(ts: seq<Transition>, j: nat, state: string, event: string)
    requires Distinct(Keys(ts)) && j < |ts| && state in ts[j].from && ts[j].event == event
    requires forall i :: 0 <= i < |ts| ==> ParsedGuard(ts[i]).Ok?
    ensures LinearSearch(ts, state, event) == Some(Target(ts[j].to, ParsedGuard(ts[j]).value))
  {
    hide ParsedGuard, SourceKeys, Keys;
    var k := Key(state, event);
    SourceKeyIn(ts[0], k);
    KeysSplit(ts);
    if j > 0 {
      KeyOfLater(ts[1..], j - 1, k);
      var a, b := SourceKeys(ts[0].from, ts[0].event), Keys(ts[1..]);
      ApartInTwo(a, b, k);
      SearchFindsTheOne(ts[1..], j - 1, state, event);
    }
  }

  lemma KeysSplit(ts: seq<Transition>)
    requires ts != [] && Distinct(Keys(ts))
    ensures Keys(ts) == SourceKeys(ts[0].from, ts[0].event) + Keys(ts[1..])
    ensures Distinct(Keys(ts[1..]))
  {
    hide SourceKeys, Distinct;
    DistinctTail(SourceKeys(ts[0].from, ts[0].event), Keys(ts[1..]));
  }

  lemma DistinctTail(a: seq<Key>, b: seq<Key>)
    requires Distinct(a + b)
    ensures Distinct(b)
  {
    forall i, j | 0 <= i < j < |b| ensures b[i] != b[j] {
      assert (a + b)[|a| + i] == b[i] && (a + b)[|a| + j] == b[j];
    }
  }

  lemma {:induction false} KeyOfLater(ts: seq<Transition>, j: nat, k: Key)
    requires j < |ts| && k.state in ts[j].from && ts[j].event == k.event
    ensures k in Keys(ts)
  {
    hide SourceKeys;
    SourceKeyIn(ts[0], k);
    if j > 0 {
      KeyOfLater(ts[1..], j - 1, k);
    }
  }

  lemma ApartInTwo(a: seq<Key>, b: seq<Key>, k: Key)
    requires Distinct(a + b) && k in b
    ensures k !in a
  {
    var j :| 0 <= j < |b| && b[j] == k;
    forall i | 0 <= i < |a| ensures a[i] != k {
      assert (a + b)[i] == a[i] && (a + b)[|a| + j] == k;
    }
  }

  /** An accepted definition leads from a state exactly where its JSON says, with exactly its guard. */
  lemma TransitionsAreDeclared(
    env: Env, key: MachineKey, raw: Raw, m: Machine, state: string, event: string, ctx: Value)
    requires FromRaw(env.checksum, key.name, key.version, raw) == Ok(m)
    ensures var t := GetTransition(m, state, event);
            && (t.Some? <==> Declares(raw, state, event))
            && (forall to :: LeadsTo(raw, state, event, to, ctx) <==>
                  t.Some? && t.value.to == to && Holds(t.value.guard, ctx))
  {
    hide FromRaw, LinearSearch, Holds, TextHolds, ParsedGuard, Keys, GetTransition;
    IndexIsLinearSearch(env.checksum, key.name, key.version, raw, state, event);
    FromRawAccepts(env.checksum, key.name, key.version, raw);
    var t := GetTransition(m, state, event);
    if t.Some? {
      var i := SearchPermits(raw.transitions, state, event);
      GuardIsItsText(raw.transitions[i], ctx);
      if Holds(t.value.guard, ctx) {
        assert Permits(raw, i, state, event, t.value.to, ctx);
      }
    }
    forall j: nat | j < |raw.transitions| && state in raw.transitions[j].from && raw.transitions[j].event == event
      ensures t == Some(Target(raw.transitions[j].to, ParsedGuard(raw.transitions[j]).value))
    {
      OneDeclared(raw, j, state, event);
      GuardIsItsText(raw.transitions[j], ctx);
    }
    forall j: nat, to | Permits(raw, j, state, event, to, ctx)
      ensures t.Some? && t.value.to == to && Holds(t.value.guard, ctx)
    {
      OneDeclared(raw, j, state, event);
      GuardIsItsText(raw.transitions[j], ctx);
    }
  }

  lemma OneDeclared(raw: Raw, j: nat, state: string, event: string)
    requires ValidRaw(raw) && j < |raw.transitions|
    requires state in raw.transitions[j].from && raw.transitions[j].event == event
    ensures ParsedGuard(raw.transitions[j]).Ok?
    ensures LinearSearch(raw.transitions, state, event)
         == Some(Target(raw.transitions[j].to, ParsedGuard(raw.transitions[j]).value))
  {
    hide LinearSearch, ParsedGuard, Keys, Declared;
    forall i | 0 <= i < |raw.transitions| ensures ParsedGuard(raw.transitions[i]).Ok? {
      assert GoodTransition(StateSet(raw), raw.transitions[i]);
    }
    SearchFindsTheOne(raw.transitions, j, state, event);
  }

  predicate Cached(es: EngineState, op: Op) {
    op.Apply? && op.key.Some? && CacheKey(op.id, op.key.value) in es.cache
  }

  /**
   Every answer to an event, from the instance and the definition's JSON: a state or an offset other than expected is
   reported with both values, in that order; then a missing transition, a guard text that does not hold, a failure of
   the log; and otherwise the event is accepted. A rejected call changes nothing.
   */
  lemma ApplyAnswers(env: Env, db: Db, call: Call, raw: Raw)
    requires call.op.Apply? && !Cached(db.es, call.op) && call.op.id in db.es.instances
    requires var key := KeyOf(db.es.instances[call.op.id]);
             key in db.es.defs && FromRaw(env.checksum, key.name, key.version, raw) == Ok(db.es.defs[key])
    ensures var op, i, (after, answer) := call.op, db.es.instances[call.op.id], Exec(env, db, call);
            && (answer.Failed? ==> after == db)
            && (if op.expectedState.Some? && op.expectedState.value != i.state then
                  answer == Failed(StateConflict(op.expectedState.value, i.state))
                else if op.expectedOffset.Some? && op.expectedOffset.value != i.lastWalOffset then
                  answer == Failed(WalOffsetConflict(op.expectedOffset.value, i.lastWalOffset))
                else if !Declares(raw, i.state, op.event) then answer == Failed(InvalidTransition)
                else if forall to :: !LeadsTo(raw, i.state, op.event, to, i.ctx) then answer == Failed(GuardFailed)
                else if call.wal.Err? then answer == Failed(WalFailed(call.wal.error))
                else
                  && answer.ApplyOk? && |after.log| == |db.log| + 1
                  && LeadsTo(raw, i.state, op.event, answer.result.toState, i.ctx))
  {
    var op, i := call.op, db.es.instances[call.op.id];
    var key := KeyOf(i);
    hide FromRaw, LeadsTo, Declares, Holds, GetTransition, Merge;
    TransitionsAreDeclared(env, key, raw, db.es.defs[key], i.state, op.event, i.ctx);
    var t := GetTransition(db.es.defs[key], i.state, op.event);
    assert t.Some? ==> (LeadsTo(raw, i.state, op.event, t.value.to, i.ctx) <==> Holds(t.value.guard, i.ctx));
  }

  /** What a call answers when it succeeds is what the instance has become, and where its record stands. */
  lemma AnswersTell(env: Env, db: Db, call: Call)
    requires call.wal.Ok? && !Cached(db.es, call.op)
    ensures var op, (after, answer) := call.op, Exec(env, db, call);
            match answer
            case PutOk(checksum, _) =>
              op.Put? && MachineKey(op.name, op.version) in after.es.defs
              && after.es.defs[MachineKey(op.name, op.version)].checksum == checksum
            case CreateOk(instance, _) =>
              op.Create? && op.id in after.es.instances && after.es.instances[op.id] == instance
            case ApplyOk(r) =>
              && op.Apply? && op.id in db.es.instances && op.id in after.es.instances && r.applied
              && var (before, now) := (db.es.instances[op.id], after.es.instances[op.id]);
                 && r.fromState == before.state && r.toState == now.state && r.ctx == now.ctx
                 && r.walOffset == now.lastWalOffset == call.wal.value.1 && r.sequence == call.wal.value.0
                 && now.lastEventId == op.eventId && now.lifecycle == before.lifecycle
                 && KeyOf(now) == KeyOf(before)
            case DeleteOk(offset) =>
              && op.Delete? && op.id in after.es.instances
              && after.es.instances[op.id].lifecycle.Deleted? && after.es.instances[op.id].lastWalOffset == offset
            case Failed(_) => after == db
  {
    hide FromRaw, Holds, GetTransition, Merge, RawOfJson;
  }

  /** What a call writes is what it was asked for: nothing of a request is lost on its way into the log. */
  lemma RecordsTell(env: Env, db: Db, call: Call)
    requires GainOf(env, db, call) != []
    ensures var op, rec := call.op, GainOf(env, db, call)[0];
            && call.wal == Ok((rec.sequence, rec.offset))
            && match rec.entry
               case PutMachine(name, version, hash, json) =>
                 && op == Put(name, version, json) && MachineKey(name, version) in Exec(env, db, call).0.es.defs
                 && hash == Exec(env, db, call).0.es.defs[MachineKey(name, version)].checksum
               case CreateInstance(id, machine, version, initial, ctx, key) =>
                 op == Create(id, machine, version, ctx, key)
               case ApplyEvent(id, event, from, to, payload, ctx, eventId, key) =>
                 op == Apply(id, event, payload, op.expectedState, op.expectedOffset, eventId, key)
               case DeleteInstance(id, key) => op == Delete(id, key)
               case _ => false
  {
    hide FromRaw, Holds, GetTransition, Merge, RawOfJson;
  }

  /**
   Every answer to a creation: a key that an event of the instance was made with returns the instance as it is; an
   instance that is there, or a machine that is not, is an error; and else the instance is new, active, in the initial
   state of its machine, with the context that was asked for.
   */
  lemma CreateAnswers(env: Env, db: Db, call: Call)
    requires call.op.Create?
    ensures var op, (after, answer) := call.op, Exec(env, db, call);
            var machine := MachineKey(op.machine, op.version);
            if op.id in db.es.instances then
              && after == db
              && answer == (if op.key.Some? && CacheKey(op.id, op.key.value) in db.es.cache then
                              CreateOk(db.es.instances[op.id], db.es.instances[op.id].lastWalOffset)
                            else Failed(InstanceExists))
            else if machine !in db.es.defs then after == db && answer == Failed(MachineVersionNotFound)
            else if call.wal.Err? then after == db && answer == Failed(WalFailed(call.wal.error))
            else
              && answer.CreateOk? && answer.sequence == call.wal.value.0
              && answer.instance == Instance(op.id, op.machine, op.version, db.es.defs[machine].initial, op.ctx, Active,
                                             None, call.wal.value.1)
              && after.es.instances == db.es.instances[op.id := answer.instance] && after.es.defs == db.es.defs
  {
    hide FromJson;
  }

  /** Every answer to a deletion: an error for no instance, nothing for one that is gone, and else one change. */
  lemma DeleteAnswers(env: Env, db: Db, call: Call)
    requires call.op.Delete?
    ensures var op, (after, answer) := call.op, Exec(env, db, call);
            if op.id !in db.es.instances then after == db && answer == Failed(InstanceNotFound)
            else
              var i := db.es.instances[op.id];
              if i.lifecycle.Deleted? then after == db && answer == DeleteOk(i.lastWalOffset)
              else if call.wal.Err? then after == db && answer == Failed(WalFailed(call.wal.error))
              else
                && answer == DeleteOk(call.wal.value.1)
                && after.es == db.es.(instances := db.es.instances[op.id :=
                                 i.(lifecycle := Deleted, lastWalOffset := call.wal.value.1)])
  {
    hide FromJson;
  }

  /** An event for no instance is an error. */
  lemma NobodyAnswers(env: Env, db: Db, call: Call)
    requires call.op.Apply? && !Cached(db.es, call.op) && call.op.id !in db.es.instances
    ensures Exec(env, db, call) == (db, Failed(InstanceNotFound))
  {
    hide FromJson;
  }

  /** A call leaves everything alone that it does not name. */
  lemma OthersStay(env: Env, db: Db, call: Call, id: string, key: MachineKey)
    ensures var op, after := call.op, Exec(env, db, call).0.es;
            && (op.Put? || op.id != id ==> At(after.instances, id) == At(db.es.instances, id))
            && (key in db.es.defs ==> key in after.defs && after.defs[key] == db.es.defs[key])
            && (key !in db.es.defs && (!op.Put? || MachineKey(op.name, op.version) != key) ==> key !in after.defs)
  {
    hide FromRaw, Holds, GetTransition, Merge, RawOfJson;
  }

  // ---------------------------------------------------------------------------------------------------------------
  // Over runs
  // ---------------------------------------------------------------------------------------------------------------

  lemma {:induction false} MachinesStay(env: Env, db: Db, calls: seq<Call>, key: MachineKey)
    requires key in db.es.defs
    ensures var after := Run(env, db, calls).es; key in after.defs && after.defs[key] == db.es.defs[key]
  {
    hide Exec;
    if calls == [] {
    } else {
      var n := |calls| - 1;
      MachinesStay(env, db, calls[..n], key);
      OthersStay(env, Run(env, db, calls[..n]), calls[n], "", key);
    }
  }

  /**
   A machine stands once it is there: after any calls, putting a definition under its name and version answers with its
   checksum and that nothing was created if the checksums are the same, and that the version exists if they are not;
   neither changes anything.
   */
  lemma FirstMachineStands(env: Env, db: Db, between: seq<Call>, again: Call)
    requires again.op.Put? && MachineKey(again.op.name, again.op.version) in db.es.defs
    requires FromJson(env.checksum, again.op.name, again.op.version, again.op.json).Ok?
    ensures var (later, op) := (Run(env, db, between), again.op);
            var first := db.es.defs[MachineKey(op.name, op.version)];
            var m := FromJson(env.checksum, op.name, op.version, op.json).value;
            Exec(env, later, again)
            == (later, if m.checksum == first.checksum then PutOk(first.checksum, false)
                       else Failed(MachineVersionExists))
  {
    hide Run, FromJson;
    MachinesStay(env, db, between, MachineKey(again.op.name, again.op.version));
  }

  /** A deletion is final: nothing makes the instance live again, and deleting it once more changes nothing. */
  lemma {:induction false} DeletionIsFinal(env: Env, db: Db, calls: seq<Call>, id: string)
    requires id in db.es.instances && db.es.instances[id].lifecycle.Deleted?
    ensures var later := Run(env, db, calls);
            && id in later.es.instances && later.es.instances[id].lifecycle.Deleted?
            && forall call: Call :: call.op.Delete? && call.op.id == id ==>
                 Exec(env, later, call) == (later, DeleteOk(later.es.instances[id].lastWalOffset))
  {
    if calls == [] {
    } else {
      hide Exec;
      var n := |calls| - 1;
      DeletionIsFinal(env, db, calls[..n], id);
      DeletedStays(env, Run(env, db, calls[..n]), calls[n], id);
      forall call: Call | call.op.Delete? && call.op.id == id
        ensures Exec(env, Run(env, db, calls), call)
             == (Run(env, db, calls), DeleteOk(Run(env, db, calls).es.instances[id].lastWalOffset))
      {
        DeletedAnswers(env, Run(env, db, calls), call, id);
      }
    }
  }

  lemma DeletedStays(env: Env, db: Db, call: Call, id: string)
    requires id in db.es.instances && db.es.instances[id].lifecycle.Deleted?
    ensures var after := Exec(env, db, call).0.es; id in after.instances && after.instances[id].lifecycle.Deleted?
  {
    hide FromJson, Holds, GetTransition, Merge;
  }

  lemma DeletedAnswers(env: Env, db: Db, call: Call, id: string)
    requires id in db.es.instances && db.es.instances[id].lifecycle.Deleted? && call.op.Delete? && call.op.id == id
    ensures Exec(env, db, call) == (db, DeleteOk(db.es.instances[id].lastWalOffset))
  {
    hide FromJson;
  }

  // Optimistic locking: an expected offset names the instance's last record.

  /** Some record behind the first `n` is about the instance. */
  predicate Touched(log: Log, n: nat, id: string) { exists k :: n <= k < |log| && About(log[k].entry, id) }

  /** The log gives no call an offset that it gave before. */
  predicate NotAgain(calls: seq<Call>, offset: nat) {
    forall k :: 0 <= k < |calls| && calls[k].wal.Ok? ==> calls[k].wal.value.1 != offset
  }

  lemma TouchStep(env: Env, db: Db, call: Call, id: string)
    requires id in db.es.instances
    ensures var after, gain := Exec(env, db, call).0, GainOf(env, db, call);
            && after.log == db.log + gain && |gain| <= 1 && id in after.es.instances
            && (gain == [] || !About(gain[0].entry, id) ==> after.es.instances[id] == db.es.instances[id])
            && (gain != [] ==> call.wal.Ok? && gain[0].offset == call.wal.value.1)
            && (gain != [] && About(gain[0].entry, id) ==> after.es.instances[id].lastWalOffset == gain[0].offset)
  {
    hide FromJson, Holds, GetTransition, Merge;
    ExecGains(env, db, call);
  }

  /** As long as no record of the instance is written it stays what it is; once one is, its offset is another. */
  lemma {:induction false} OffsetTellsTouch(env: Env, db: Db, calls: seq<Call>, id: string)
    requires id in db.es.instances && NotAgain(calls, db.es.instances[id].lastWalOffset)
    ensures var (later, i) := (Run(env, db, calls), db.es.instances[id]);
            && |later.log| >= |db.log| && id in later.es.instances
            && (Touched(later.log, |db.log|, id) <==> later.es.instances[id].lastWalOffset != i.lastWalOffset)
            && (!Touched(later.log, |db.log|, id) ==> later.es.instances[id] == i)
  {
    hide Exec, GainOf;
    if calls == [] {
    } else {
      var n := |calls| - 1;
      var mid, call := Run(env, db, calls[..n]), calls[n];
      OffsetTellsTouch(env, db, calls[..n], id);
      TouchStep(env, mid, call, id);
      var gain := GainOf(env, mid, call);
      TouchedGrows(mid.log, gain, |db.log|, id);
    }
  }

  lemma TouchedGrows(log: Log, gain: Log, n: nat, id: string)
    requires n <= |log| && |gain| <= 1
    ensures Touched(log + gain, n, id) <==> Touched(log, n, id) || (gain != [] && About(gain[0].entry, id))
  {
    hide About;
    var all := log + gain;
    if Touched(log, n, id) {
      var k :| n <= k < |log| && About(log[k].entry, id);
      assert all[k] == log[k];
    }
    if gain != [] && About(gain[0].entry, id) {
      assert all[|log|] == gain[0];
    }
  }

  /**
   No lost updates: a caller that reads an instance and later asks for an event with the offset it read is refused, with
   both offsets (or, if it expects another state, both states) and without effect, whenever any record of the instance
   was written in between, by whomever; and never for the offset when none was.
   */
  lemma NoLostUpdate(env: Env, db: Db, between: seq<Call>, call: Call)
    requires call.op.Apply? && call.op.id in db.es.instances
    requires call.op.expectedOffset == Some(db.es.instances[call.op.id].lastWalOffset)
    requires NotAgain(between, db.es.instances[call.op.id].lastWalOffset)
    requires !Cached(Run(env, db, between).es, call.op)
    ensures var later, id := Run(env, db, between), call.op.id;
            var (after, answer) := Exec(env, later, call);
            && id in later.es.instances
            && var read, now := db.es.instances[id], later.es.instances[id];
               if Touched(later.log, |db.log|, id) then
                 && after == later
                 && answer == Failed(if call.op.expectedState.Some? && call.op.expectedState.value != now.state then
                                       StateConflict(call.op.expectedState.value, now.state)
                                     else WalOffsetConflict(read.lastWalOffset, now.lastWalOffset))
               else now == read && !(answer.Failed? && answer.error.WalOffsetConflict?)
  {
    hide Run, Holds, GetTransition, Merge, Touched;
    OffsetTellsTouch(env, db, between, call.op.id);
  }
}
