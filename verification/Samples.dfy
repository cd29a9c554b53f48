/** A small machine for the lemmas that exhibit runs: one state, and one event that stays in it. */
module Samples {
  import opened Common
  import opened Json
  import opened Guard
  import opened Definition
  import opened Entry
  import opened Engine

  const STAY: Value :=
    Object(map["from" := String("a"), "event" := String("e"), "to" := String("a")])

  /** The definition, with metadata to tell one version of it from another. */
  function Sample(meta: Option<Value>): Value {
    var fields := map["states" := Array([String("a")]), "initial" := String("a"), "transitions" := Array([STAY])];
    Object(match meta case None => fields case Some(v) => fields["meta" := v])
  }

  function SampleRaw(meta: Option<Value>): Raw {
    Raw(["a"], "a", [Transition(["a"], "e", "a", None)], meta)
  }

  function SampleMachine(env: Env, meta: Option<Value>): Machine {
    Machine("m", 1, {"a"}, "a", map[Key("a", "e") := Target("a", None)], SampleRaw(meta), env.checksum(SampleRaw(meta)))
  }

  lemma StayReads()
    ensures TransitionOfJson(STAY) == Some(Transition(["a"], "e", "a", None))
    ensures TransitionsOfJson([STAY]) == Some([Transition(["a"], "e", "a", None)])
  {
    var fields := STAY.fields;
    assert fields["from"] == String("a") && fields["event"] == String("e") && fields["to"] == String("a");
    assert "guard" !in fields;
    assert FromStates(String("a")) == Some(["a"]);
    assert [STAY][1..] == [];
    assert TransitionsOfJson([]) == Some([]);
    assert [Transition(["a"], "e", "a", None)] + [] == [Transition(["a"], "e", "a", None)];
  }

  lemma SampleReads(meta: Option<Value>)
    requires meta != Some(Null)
    ensures RawOfJson(Sample(meta)) == Some(SampleRaw(meta))
  {
    hide TransitionsOfJson, TransitionOfJson;
    StayReads();
    var fields := Sample(meta).fields;
    assert Field(Sample(meta), "states") == Some(Array([String("a")]));
    assert Field(Sample(meta), "initial") == Some(String("a"));
    assert Field(Sample(meta), "transitions") == Some(Array([STAY]));
    assert [String("a")][1..] == [] && Strings([]) == Some([]);
    assert Strings([String("a")]) == Some(["a"]) by { assert ["a"] + [] == ["a"]; }
    assert MetaOfJson(Sample(meta)) == meta;
  }

  lemma SampleBuilds(env: Env, meta: Option<Value>)
    requires meta != Some(Null)
    ensures FromJson(env.checksum, "m", 1, Sample(meta)) == Ok(SampleMachine(env, meta))
  {
    SampleReads(meta);
    hide RawOfJson, Sample;
    var raw := SampleRaw(meta);
    var t := raw.transitions[0];
    assert StateSet(raw) == {"a"} by { assert "a" in raw.states; }
    var index := map[Key("a", "e") := Target("a", None)];
    assert t.from[1..] == [] && raw.transitions[1..] == [];
    assert AddSources({"a"}, [], "e", Target("a", None), index) == Ok(index);
    assert map[][Key("a", "e") := Target("a", None)] == index;
    assert AddSources({"a"}, t.from, "e", Target("a", None), map[]) == Ok(index);
    assert AddTransitions({"a"}, [], index) == Ok(index);
    assert AddTransitions({"a"}, raw.transitions, map[]) == Ok(index);
  }

  /** An instance of the sample machine that is where it starts. */
  ghost predicate AtStart(env: Env, es: EngineState, id: string) {
    && id in es.instances && KeyOf(es.instances[id]) == MachineKey("m", 1) && es.instances[id].state == "a"
    && MachineKey("m", 1) in es.defs && es.defs[MachineKey("m", 1)] == SampleMachine(env, None)
  }

  function Event(id: string, key: Option<string>): Op { Apply(id, "e", Null, None, None, None, key) }

  /** The event is accepted there. */
  lemma EventAccepted(env: Env, es: EngineState, id: string, key: Option<string>)
    requires AtStart(env, es, id)
    ensures DecideApplyOn(es, es.instances[id], Event(id, key))
         == Log(ApplyEvent(id, "e", "a", "a", Null, es.instances[id].ctx, None, key))
  {
    assert GetTransition(SampleMachine(env, None), "a", "e") == Some(Target("a", None));
  }

  /** It leaves the instance there. */
  lemma EventStays(env: Env, es: EngineState, rec: LogRecord, id: string, key: Option<string>)
    requires AtStart(env, es, id)
    requires rec.entry == ApplyEvent(id, "e", "a", "a", Null, es.instances[id].ctx, None, key)
    ensures AtStart(env, Commit(env, es, rec), id)
  {
    hide FromJson, SampleMachine;
  }

  // ---------------------------------------------------------------------------------------------------------------
  // Calls
  // ---------------------------------------------------------------------------------------------------------------

  const KEY: MachineKey := MachineKey("m", 1)

  function PutCall(n: nat, o: nat): Call { Call(Put("m", 1, Sample(None)), Ok((n, o))) }
  function CreateCall(id: string, n: nat, o: nat): Call { Call(Create(id, "m", 1, Null, None), Ok((n, o))) }
  function EventCall(id: string, key: Option<string>, n: nat, o: nat): Call { Call(Event(id, key), Ok((n, o))) }
  function DeleteCall(id: string, n: nat, o: nat): Call { Call(Delete(id, None), Ok((n, o))) }

  lemma PutRuns(env: Env, db: Db, n: nat, o: nat)
    requires KEY !in db.es.defs
    ensures var rec := LogRecord(n, o, PutMachine("m", 1, SampleMachine(env, None).checksum, Sample(None)));
            Exec(env, db, PutCall(n, o)).0
            == Db(db.es.(defs := db.es.defs[KEY := SampleMachine(env, None)]), db.log + [rec])
  {
    hide FromJson, Sample, SampleMachine;
    SampleBuilds(env, None);
  }

  function Made(id: string, o: nat): Instance { NewInstance(id, "m", 1, "a", Null, o) }

  lemma CreateRuns(env: Env, db: Db, id: string, n: nat, o: nat)
    requires KEY in db.es.defs && db.es.defs[KEY] == SampleMachine(env, None) && id !in db.es.instances
    ensures var rec := LogRecord(n, o, CreateInstance(id, "m", 1, "a", Null, None));
            Exec(env, db, CreateCall(id, n, o)).0
            == Db(db.es.(instances := db.es.instances[id := Made(id, o)]), db.log + [rec])
  {
    assert SampleMachine(env, None).initial == "a";
    hide SampleMachine, FromJson;
  }

  lemma EventRuns(env: Env, db: Db, id: string, key: Option<string>, n: nat, o: nat)
    requires AtStart(env, db.es, id) && (key.Some? ==> CacheKey(id, key.value) !in db.es.cache)
    ensures var i := db.es.instances[id];
            var rec := LogRecord(n, o, ApplyEvent(id, "e", "a", "a", Null, i.ctx, None, key));
            && Exec(env, db, EventCall(id, key, n, o)).0 == Db(Commit(env, db.es, rec), db.log + [rec])
            && Commit(env, db.es, rec).instances == db.es.instances[id := i.(lastEventId := None, lastWalOffset := o)]
            && Commit(env, db.es, rec).defs == db.es.defs
  {
    EventAccepted(env, db.es, id, key);
    hide SampleMachine, FromJson, DecideApplyOn;
  }

  lemma DeleteRuns(env: Env, db: Db, id: string, n: nat, o: nat)
    requires id in db.es.instances && db.es.instances[id].lifecycle.Active?
    ensures var i := db.es.instances[id];
            Exec(env, db, DeleteCall(id, n, o)).0
            == Db(db.es.(instances := db.es.instances[id := i.(lifecycle := Deleted, lastWalOffset := o)]),
                  db.log + [LogRecord(n, o, DeleteInstance(id, None))])
  {
    hide FromJson;
  }
}
