/** Idempotency keys under interleaved threads: when a key is written once, and a schedule that writes it twice. */
module ThreadKeys {
  import opened Common
  import opened Json
  import opened Guard
  import opened Definition
  import opened Entry
  import opened Engine
  import opened EngineSafety
  import opened Threads
  import opened Samples
  import opened Overlap

  ghost predicate Carries(op: Op, ck: CacheKey) {
    op.Apply? && op.id == ck.instanceId && op.key == Some(ck.key)
  }

  /** The thread has checked the cache for the key and is not done. */
  ghost predicate Active(s: State, t: nat, ck: CacheKey) {
    !PcOf(s, t).Idle? && Carries(PcOf(s, t).op, ck)
  }

  /** No thread checks for a key while another one with that key is under way. */
  ghost predicate KeysApart(s: State, a: Action) {
    a.Check? ==> forall t, ck :: Active(s, t, ck) ==> !Carries(a.op, ck)
  }

  /** Records say which operation they come from. */
  ghost predicate OfOp(op: Op, rec: LogRecord) {
    if op.Apply? then rec.entry.ApplyEvent? && rec.entry.instanceId == op.id && rec.entry.idempotencyKey == op.key
    else !rec.entry.ApplyEvent?
  }

  ghost predicate PcInv(s: State, t: nat) {
    var pc := PcOf(s, t);
    pc.Working? && !pc.stage.Entered? ==> OfOp(pc.op, pc.stage.rec)
  }

  /** The thread has written its record. */
  ghost predicate HasWritten(s: State, t: nat) {
    var pc := PcOf(s, t); pc.Working? && !pc.stage.Entered?
  }

  ghost predicate Alone(s: State, ck: CacheKey) {
    forall t, u :: Active(s, t, ck) && Active(s, u, ck) ==> t == u
  }

  ghost predicate Writer(s: State, ck: CacheKey) { exists t :: Active(s, t, ck) && HasWritten(s, t) }

  /** One thread at a time is under way with the key, and the record it leads to is written once. */
  ghost predicate KeyInv(s: State, ck: CacheKey) {
    && Alone(s, ck) && (ck in s.es.cache ==> forall t :: !Active(s, t, ck))
    && CountKeyed(s.log, ck) == if ck in s.es.cache || Writer(s, ck) then 1 else 0
  }

  lemma WritesOfOp(env: Env, es: EngineState, op: Op, rec: LogRecord)
    requires ToWrite(env, es, op) == Log(rec.entry)
    ensures OfOp(op, rec)
  {
    hide FromJson, Holds, GetTransition, Merge;
  }

  /** What a step changes: the place of one thread, a record more, the cache. */
  lemma StepParts(env: Env, s: State, a: Action)
    requires Enabled(env, s, a)
    ensures var s' := Next(env, s, a);
            && (forall u :: u != a.t ==> PcOf(s', u) == PcOf(s, u))
            && (!a.Write? ==> s'.log == s.log)
            && (!a.Exit? ==> s'.es.cache == s.es.cache)
            && match a
               case Check(_, op) => PcOf(s', a.t) == Waiting(op)
               case Enter(_) => PcOf(s', a.t) == Working(PcOf(s, a.t).op, Entered)
               case Write(_, n, o) =>
                 var rec := LogRecord(n, o, ToWrite(env, s.es, PcOf(s, a.t).op).entry);
                 PcOf(s', a.t) == Working(PcOf(s, a.t).op, Written(rec)) && s'.log == s.log + [rec]
               case Leave(_) => PcOf(s', a.t) == Idle
               case Update(_) => PcOf(s', a.t) == Working(PcOf(s, a.t).op, Applied(PcOf(s, a.t).stage.rec))
               case Exit(_) => PcOf(s', a.t) == Idle && s'.es.cache == FillCache(s.es, PcOf(s, a.t).stage.rec).cache
  {
    hide ToWrite, Commit;
  }

  lemma PcStep(env: Env, s: State, a: Action, t: nat)
    requires PcInv(s, t) && Enabled(env, s, a)
    ensures PcInv(Next(env, s, a), t)
  {
    StepParts(env, s, a);
    hide Next, ToWrite;
    if a.Write? && a.t == t {
      var op := PcOf(s, t).op;
      WritesOfOp(env, s.es, op, LogRecord(a.sequence, a.offset, ToWrite(env, s.es, op).entry));
    }
  }

  /** A step of a thread that is not under way with the key before or after it. */
  lemma OtherStep(env: Env, s: State, a: Action, ck: CacheKey)
    requires KeyInv(s, ck) && PcInv(s, a.t) && Enabled(env, s, a)
    requires !Active(s, a.t, ck) && !Active(Next(env, s, a), a.t, ck)
    ensures KeyInv(Next(env, s, a), ck)
  {
    StepParts(env, s, a);
    PcStep(env, s, a, a.t);
    var s', t := Next(env, s, a), a.t;
    if a.Write? {
      CountKeyedLast(s.log, s'.log[|s.log|], ck);
    }
    hide Next, ToWrite, CountKeyed;
    assert forall u :: Active(s', u, ck) <==> Active(s, u, ck);
    assert forall u :: Active(s, u, ck) ==> (HasWritten(s', u) <==> HasWritten(s, u));
    assert Writer(s', ck) <==> Writer(s, ck);
    assert ck in s'.es.cache <==> ck in s.es.cache;
  }

  /** A step of the thread that is under way with the key, or becomes so. */
  lemma OwnStep(env: Env, s: State, a: Action, ck: CacheKey)
    requires KeyInv(s, ck) && PcInv(s, a.t) && Enabled(env, s, a) && KeysApart(s, a)
    requires Active(s, a.t, ck) || Active(Next(env, s, a), a.t, ck)
    ensures KeyInv(Next(env, s, a), ck)
  {
    StepParts(env, s, a);
    PcStep(env, s, a, a.t);
    var s', t := Next(env, s, a), a.t;
    if a.Write? {
      CountKeyedLast(s.log, s'.log[|s.log|], ck);
    }
    hide Next, ToWrite, CountKeyed;
    assert !Active(s, t, ck) ==> a.Check? && Carries(a.op, ck);
    forall u | u != t ensures !Active(s, u, ck) && !Active(s', u, ck) {
      assert PcOf(s', u) == PcOf(s, u);
      assert Active(s, u, ck) <==> Active(s', u, ck);
      assert !(Active(s, u, ck) && Active(s, t, ck));
    }
    assert Writer(s, ck) <==> Active(s, t, ck) && HasWritten(s, t);
    assert Writer(s', ck) <==> Active(s', t, ck) && HasWritten(s', t);
  }

  lemma KeyStep(env: Env, s: State, a: Action, ck: CacheKey)
    requires KeyInv(s, ck) && PcInv(s, a.t) && Enabled(env, s, a) && KeysApart(s, a)
    ensures KeyInv(Next(env, s, a), ck)
  {
    hide Enabled, Next, KeyInv, PcInv, KeysApart;
    if Active(s, a.t, ck) || Active(Next(env, s, a), a.t, ck) {
      OwnStep(env, s, a, ck);
    } else {
      OtherStep(env, s, a, ck);
    }
  }

  lemma {:induction false} KeysHold(env: Env, states: seq<State>, actions: seq<Action>, k: nat)
    requires IsSchedule(env, states, actions) && k < |states|
    requires forall i :: 0 <= i < |actions| ==> KeysApart(states[i], actions[i])
    ensures (forall t :: PcInv(states[k], t)) && forall ck :: KeyInv(states[k], ck)
    decreases k
  {
    hide Enabled, Next, KeysApart, PcInv, KeyInv;
    if k == 0 {
      forall ck ensures KeyInv(START, ck) { NoKeys(ck); }
      forall t ensures PcInv(START, t) { NoPcs(t); }
    } else {
      KeysHold(env, states, actions, k - 1);
      var s, a := states[k - 1], actions[k - 1];
      forall t ensures PcInv(states[k], t) { PcStep(env, s, a, t); }
      forall ck ensures KeyInv(states[k], ck) { KeyStep(env, s, a, ck); }
    }
  }

  lemma NoKeys(ck: CacheKey)
    ensures KeyInv(START, ck)
  {
  }

  lemma NoPcs(t: nat)
    ensures PcInv(START, t)
  {
  }

  /**
   Over every interleaving in which no thread checks for a key while another one is under way with it, each instance
   and key has at most one event record.
   */
  lemma OneRecordPerKeyApart(env: Env, states: seq<State>, actions: seq<Action>, k: nat, ck: CacheKey)
    requires IsSchedule(env, states, actions) && k < |states|
    requires forall i :: 0 <= i < |actions| ==> KeysApart(states[i], actions[i])
    ensures CountKeyed(states[k].log, ck) <= 1
  {
    hide IsSchedule, KeysApart, CountKeyed;
    KeysHold(env, states, actions, k);
    assert KeyInv(states[k], ck);
  }

  // ---------------------------------------------------------------------------------------------------------------
  // The same key twice
  // ---------------------------------------------------------------------------------------------------------------

  /** Two threads check the cache, then run one after the other. */
  lemma CheckedTwice(env: Env, s: State, op: Op, n: nat) returns (actions: seq<Action>, s': State)
    requires Quiet(s) && op.Apply? && Runs(env, s, op)
    requires var rec := Recorded(env, s, op, n);
             ToWrite(env, FillCache(WithoutCache(env, s.es, rec), rec), op).Log?
    ensures Leads(env, s, actions, s')
    ensures |s'.log| == |s.log| + 2 && s'.log[..|s.log| + 1] == s.log + [Recorded(env, s, op, n)]
    ensures OfOp(op, s'.log[|s.log| + 1])
  {
    hide ToWrite, Leads, Commit;
    LeadsNowhere(env, s);
    var rec := Recorded(env, s, op, n);
    var s1 := Next(env, s, Check(1, op));
    Then(env, s, [], s, Check(1, op));
    actions := [] + [Check(1, op)];
    assert PcOf(s1, 2) == PcOf(s, 2);
    var s2 := Next(env, s1, Check(2, op));
    Then(env, s, actions, s1, Check(2, op));
    actions := actions + [Check(2, op)];
    var s3 := Next(env, s2, Enter(1));
    Then(env, s, actions, s2, Enter(1));
    actions := actions + [Enter(1)];
    var s4 := Next(env, s3, Write(1, n, n));
    Then(env, s, actions, s3, Write(1, n, n));
    actions := actions + [Write(1, n, n)];
    var s5 := Next(env, s4, Update(1));
    Then(env, s, actions, s4, Update(1));
    actions := actions + [Update(1)];
    var s6 := Next(env, s5, Exit(1));
    Then(env, s, actions, s5, Exit(1));
    actions := actions + [Exit(1)];
    assert s6.held == map[] && s6.es == FillCache(WithoutCache(env, s.es, rec), rec);
    assert op.id in s6.es.instances by { Stays(env, s.es, rec, op.id); }
    var s7 := Next(env, s6, Enter(2));
    Then(env, s, actions, s6, Enter(2));
    actions := actions + [Enter(2)];
    s' := Next(env, s7, Write(2, n + 1, n + 1));
    Then(env, s, actions, s7, Write(2, n + 1, n + 1));
    actions := actions + [Write(2, n + 1, n + 1)];
    WritesOfOp(env, s7.es, op, s'.log[|s.log| + 1]);
  }

  lemma Stays(env: Env, es: EngineState, rec: LogRecord, id: string)
    requires id in es.instances
    ensures id in FillCache(WithoutCache(env, es, rec), rec).instances
  {
    hide FromJson;
  }

  lemma TwoKeyed(log: Log, r1: LogRecord, log': Log, ck: CacheKey)
    requires |log'| == |log| + 2 && log'[..|log| + 1] == log + [r1] && Keyed(r1, ck) && Keyed(log'[|log| + 1], ck)
    ensures CountKeyed(log', ck) >= 2
  {
    CountKeyedLast(log, r1, ck);
    assert log' == log + [r1] + [log'[|log| + 1]];
    CountKeyedLast(log + [r1], log'[|log| + 1], ck);
  }

  /** The engine with one instance of the sample machine at rest. */
  lemma WithInstance(env: Env) returns (actions: seq<Action>, s: State)
    ensures Leads(env, START, actions, s) && Quiet(s) && s.es.cache == map[] && AtStart(env, s.es, "X")
  {
    hide FromJson, Leads, SampleMachine;
    var a, s0 := WithMachine(env);
    var op := CreateX(Null);
    SampleStarts(env);
    var b;
    b, s := Solo(env, s0, 1, op, 2);
    LeadsOn(env, START, a, s0, b, s);
    actions := a + b;
  }

  lemma SampleStarts(env: Env)
    ensures SampleMachine(env, None).initial == "a"
  {
  }

  /** There is a schedule in which one key is written twice, because both threads looked before either was done. */
  lemma KeyWrittenTwice(env: Env) returns (states: seq<State>, actions: seq<Action>)
    ensures IsSchedule(env, states, actions)
    ensures CountKeyed(states[|actions|].log, CacheKey("X", "k")) >= 2
  {
    hide FromJson, Leads, Quiet, CountKeyed, AtStart, DecideApplyOn;
    var a, s := WithInstance(env);
    var op := Event("X", Some("k"));
    InstanceThere(env, s.es, "X");
    var rec := LogRecord(3, 3, ApplyEvent("X", "e", "a", "a", Null, s.es.instances["X"].ctx, None, Some("k")));
    EventAccepted(env, s.es, "X", Some("k"));
    EventStays(env, s.es, rec, "X", Some("k"));
    var es' := Commit(env, s.es, rec);
    InstanceThere(env, es', "X");
    EventAccepted(env, es', "X", Some("k"));
    CommitFills(env, s.es, rec);
    var b, s' := CheckedTwice(env, s, op, 3);
    TwoKeyed(s.log, rec, s'.log, CacheKey("X", "k"));
    LeadsOn(env, START, a, s, b, s');
    actions := a + b;
    states := LeadsFrom(env, START, actions, s');
  }

  lemma InstanceThere(env: Env, es: EngineState, id: string)
    requires AtStart(env, es, id)
    ensures id in es.instances
  {
  }

  lemma CommitFills(env: Env, es: EngineState, rec: LogRecord)
    requires rec.entry.ApplyEvent? ==> rec.entry.instanceId in es.instances
    ensures FillCache(WithoutCache(env, es, rec), rec) == Commit(env, es, rec)
  {
    hide FromJson;
  }
}
