/**
 What an instance's records say about it without naming how the engine computes: where each field of its context comes
 from, and which declared transition, with which guard text, each of its events took.
 */
module Histories {
  import opened Common
  import opened Json
  import opened Guard
  import GuardParser
  import opened GuardLaws
  import opened Definition
  import opened Entry
  import opened Engine
  import opened EngineSafety

  // ---------------------------------------------------------------------------------------------------------------
  // Contexts
  // ---------------------------------------------------------------------------------------------------------------

  /** The event carries a value for this field. */
  predicate Sets(e: WalEntry, id: string, key: string) {
    e.ApplyEvent? && e.instanceId == id && e.payload.Object? && key in e.payload.fields
  }

  /** Record `k` is the last event of the instance that carries a value for the field. */
  ghost predicate LastSets(log: Log, id: string, key: string, k: nat) {
    && k < |log| && Sets(log[k].entry, id, key)
    && forall j :: k < j < |log| ==> !Sets(log[j].entry, id, key)
  }

  ghost predicate NeverSets(log: Log, id: string, key: string) {
    forall k :: 0 <= k < |log| ==> !Sets(log[k].entry, id, key)
  }

  /** A field, or its absence, follows from the records and from what it was at first. */
  ghost predicate FieldFollows(field: Option<Value>, first: Option<Value>, log: Log, id: string, key: string) {
    && (forall k: nat :: LastSets(log, id, key, k) ==> field == Some(log[k].entry.payload.fields[key]))
    && (NeverSets(log, id, key) ==> field == first)
  }

  /**
   A context follows from the instance's records: a context that is no object stays what it was created with; in an
   object, each field is what the last event that carries it says, and without such an event what the creation said.
   */
  ghost predicate FollowsRecords(ctx: Value, initial: Value, log: Log, id: string, key: string) {
    if !initial.Object? then ctx == initial
    else ctx.Object? && FieldFollows(Field(ctx, key), Field(initial, key), log, id, key)
  }

  /** What merging does to one field. */
  lemma MergedField(ctx: Value, payload: Value, key: string)
    ensures !ctx.Object? ==> Merge(ctx, payload) == ctx
    ensures ctx.Object? ==> Merge(ctx, payload).Object?
    ensures ctx.Object? ==>
              Field(Merge(ctx, payload), key)
              == if payload.Object? && key in payload.fields then Some(payload.fields[key]) else Field(ctx, key)
  {
  }

  /** What one more record does to a field, read off the record. */
  lemma FieldNext(field: Option<Value>, first: Option<Value>, log: Log, rec: LogRecord, id: string, key: string)
    requires FieldFollows(field, first, log, id, key)
    ensures var field' := if Sets(rec.entry, id, key) then Some(rec.entry.payload.fields[key]) else field;
            FieldFollows(field', first, log + [rec], id, key)
  {
    var all, n := log + [rec], |log|;
    assert all[n] == rec && forall k :: 0 <= k < n ==> all[k] == log[k];
    if Sets(rec.entry, id, key) {
      assert !NeverSets(all, id, key);
      assert forall k: nat :: LastSets(all, id, key, k) ==> k == n;
    } else {
      forall k: nat | LastSets(all, id, key, k) ensures LastSets(log, id, key, k) {
        assert k != n;
      }
    }
  }

  lemma SetsNext(ctx: Value, ctx': Value, initial: Value, log: Log, rec: LogRecord, id: string, key: string)
    requires FollowsRecords(ctx, initial, log, id, key)
    requires ctx' == if About(rec.entry, id) && rec.entry.ApplyEvent? then Merge(ctx, rec.entry.payload) else ctx
    ensures FollowsRecords(ctx', initial, log + [rec], id, key)
  {
    hide Merge, FieldFollows, Field;
    if rec.entry.ApplyEvent? {
      MergedField(ctx, rec.entry.payload, key);
    }
    if initial.Object? {
      FieldNext(Field(ctx, key), Field(initial, key), log, rec, id, key);
    }
  }

  lemma {:induction false} ContextFollowsRecords(env: Env, log: Log, id: string, key: string)
    requires LogOk(env, log) && id in Replay(env, log).instances
    ensures Creation(log, id).Some?
    ensures var initial := log[Creation(log, id).value].entry.initialCtx;
            FollowsRecords(Replay(env, log).instances[id].ctx, initial, log, id, key)
  {
    hide FromJson, FollowsRecords, Merge;
    var n := |log| - 1;
    var before, rec := log[..n], log[n];
    assert log == before + [rec];
    var es := Replay(env, before);
    if id in es.instances {
      ContextFollowsRecords(env, before, id, key);
      var c := Creation(before, id).value;
      assert Creation(log, id) == Some(c) && log[c] == before[c];
      SetsNext(es.instances[id].ctx, Replay(env, log).instances[id].ctx, log[c].entry.initialCtx, before, rec, id, key);
    } else {
      assert CreatesId(rec.entry, id);
      NoEventsYet(env, before, id, key);
      JustCreated(rec, before, id, key);
    }
  }

  lemma NoEventsYet(env: Env, log: Log, id: string, key: string)
    requires LogOk(env, log) && id !in Replay(env, log).instances
    ensures NeverSets(log, id, key)
  {
    hide Replay, LogOk;
    ReplayIsTraced(env, log, id);
  }

  lemma JustCreated(rec: LogRecord, log: Log, id: string, key: string)
    requires CreatesId(rec.entry, id) && NeverSets(log, id, key)
    ensures FollowsRecords(rec.entry.initialCtx, rec.entry.initialCtx, log + [rec], id, key)
  {
    var all := log + [rec];
    assert forall k :: 0 <= k < |log| ==> all[k] == log[k];
    assert NeverSets(all, id, key);
    assert forall k: nat :: !LastSets(all, id, key, k);
  }

  /** The same in the live engine after any run. */
  lemma ContextsOfRuns(env: Env, calls: seq<Call>, id: string, key: string)
    requires id in Run(env, Db(EMPTY, []), calls).es.instances
    ensures var db := Run(env, Db(EMPTY, []), calls);
            && Creation(db.log, id).Some?
            && var initial := db.log[Creation(db.log, id).value].entry.initialCtx;
               FollowsRecords(db.es.instances[id].ctx, initial, db.log, id, key)
  {
    hide Run, LogOk, Replay, FollowsRecords;
    EmptyDb(env);
    ReplayRebuilds(env, Db(EMPTY, []), calls);
    ContextFollowsRecords(env, Run(env, Db(EMPTY, []), calls).log, id, key);
  }

  // ---------------------------------------------------------------------------------------------------------------
  // Events and the definitions they follow
  // ---------------------------------------------------------------------------------------------------------------

  /** Record `p` puts the machine, and its JSON reads as `raw`. */
  ghost predicate PutsRaw(log: Log, p: nat, key: MachineKey, raw: Raw) {
    && p < |log| && log[p].entry.PutMachine? && MachineKey(log[p].entry.machine, log[p].entry.version) == key
    && RawOfJson(log[p].entry.definition) == Some(raw)
  }

  lemma {:induction false} MachinesWerePut(env: Env, log: Log, key: MachineKey) returns (p: nat, raw: Raw)
    requires key in Replay(env, log).defs
    ensures PutsRaw(log, p, key, raw)
    ensures FromRaw(env.checksum, key.name, key.version, raw) == Ok(Replay(env, log).defs[key])
  {
    hide RawOfJson, FromRaw;
    var n := |log| - 1;
    var before, rec := log[..n], log[n];
    if key in Replay(env, before).defs {
      p, raw := MachinesWerePut(env, before, key);
      assert before[p] == log[p];
    } else {
      p, raw := n, RawOfJson(rec.entry.definition).value;
    }
  }

  /** Transition `i` of the definition leads this way, and its guard text, if it has one, holds. */
  ghost predicate Permits(raw: Raw, i: nat, state: string, event: string, to: string, ctx: Value) {
    && i < |raw.transitions|
    && var t := raw.transitions[i];
       && state in t.from && t.event == event && t.to == to
       && (t.guard.Some? ==> TextHolds(t.guard.value, ctx))
  }

  lemma {:induction false} SearchPermits(ts: seq<Transition>, state: string, event: string) returns (i: nat)
    requires LinearSearch(ts, state, event).Some?
    ensures i < |ts| && state in ts[i].from && ts[i].event == event
    ensures ParsedGuard(ts[i]).Ok?
    ensures LinearSearch(ts, state, event).value == Target(ts[i].to, ParsedGuard(ts[i]).value)
  {
    hide ParsedGuard;
    if state in ts[0].from && ts[0].event == event && ParsedGuard(ts[0]).Ok? {
      i := 0;
    } else {
      var k := SearchPermits(ts[1..], state, event);
      i := k + 1;
    }
  }

  lemma GuardIsItsText(t: Transition, ctx: Value)
    requires ParsedGuard(t).Ok?
    ensures Holds(ParsedGuard(t).value, ctx) <==> (t.guard.Some? ==> TextHolds(t.guard.value, ctx))
  {
    hide Evaluate, GuardParser.Parse;
  }

  /** What lets an event through is a transition that the definition's JSON declares, with a guard text that holds. */
  lemma TransitionIsDeclared(env: Env, key: MachineKey, raw: Raw, m: Machine, state: string, event: string, ctx: Value)
    returns (i: nat)
    requires FromRaw(env.checksum, key.name, key.version, raw) == Ok(m)
    requires GetTransition(m, state, event).Some? && Holds(GetTransition(m, state, event).value.guard, ctx)
    ensures Permits(raw, i, state, event, GetTransition(m, state, event).value.to, ctx)
  {
    hide FromRaw, LinearSearch, Holds, TextHolds, ParsedGuard;
    IndexIsLinearSearch(env.checksum, key.name, key.version, raw, state, event);
    i := SearchPermits(raw.transitions, state, event);
    GuardIsItsText(raw.transitions[i], ctx);
  }

  /**
   From the JSON to the log: every event record of a log the engine can write takes a transition that the JSON of the
   instance's machine, put earlier, declares from the instance's state for this event, and whose guard text, if it has
   one, holds on the instance's context before the event.
   */
  lemma EventsAreDeclared(env: Env, log: Log, k: nat) returns (p: nat, raw: Raw, i: nat)
    requires LogOk(env, log) && k < |log| && log[k].entry.ApplyEvent?
    ensures var e, es := log[k].entry, Replay(env, log[..k]);
            && e.instanceId in es.instances && p < k
            && var instance := es.instances[e.instanceId];
               && PutsRaw(log, p, KeyOf(instance), raw)
               && e.fromState == instance.state
               && Permits(raw, i, instance.state, e.event, e.toState, instance.ctx)
  {
    hide LogOk, Replay, GetTransition, Holds, Permits, FromRaw, RawOfJson;
    LogOkPrefix(env, log, k);
    var before, e := log[..k], log[k].entry;
    var instance := Replay(env, before).instances[e.instanceId];
    var key := KeyOf(instance);
    p, raw := MachinesWerePut(env, before, key);
    assert before[p] == log[p];
    i := TransitionIsDeclared(env, key, raw, Replay(env, before).defs[key], instance.state, e.event, instance.ctx);
  }

  /** A machine is what its definition says: the states and the initial state that are listed there. */
  lemma MachineIsRaw(env: Env, key: MachineKey, raw: Raw)
    requires FromRaw(env.checksum, key.name, key.version, raw).Ok?
    ensures var m := FromRaw(env.checksum, key.name, key.version, raw).value;
            && m.name == key.name && m.version == key.version && m.initial == raw.initial
            && (forall state :: state in m.states <==> state in raw.states)
            && m.raw == raw && m.checksum == env.checksum(raw)
  {
    hide AddTransitions;
  }

  /** Every creation record starts in the initial state that the JSON of its machine, put earlier, names. */
  lemma CreationsAreDeclared(env: Env, log: Log, k: nat) returns (p: nat, raw: Raw)
    requires LogOk(env, log) && k < |log| && log[k].entry.CreateInstance?
    ensures var e := log[k].entry;
            && p < k && PutsRaw(log, p, MachineKey(e.machine, e.version), raw)
            && e.initialState == raw.initial && raw.initial in raw.states
            && e.instanceId !in Replay(env, log[..k]).instances
  {
    hide LogOk, Replay, FromRaw, RawOfJson;
    LogOkPrefix(env, log, k);
    var before, e := log[..k], log[k].entry;
    var key := MachineKey(e.machine, e.version);
    p, raw := MachinesWerePut(env, before, key);
    assert before[p] == log[p];
    MachineIsRaw(env, key, raw);
    FromRawClosed(env.checksum, key.name, key.version, raw);
  }
}
