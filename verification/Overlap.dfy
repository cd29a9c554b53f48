/** Schedules that are not orderly, and what they do: overlapping creations, puts and idempotent calls. */
module Overlap {
  import opened Common
  import opened Json
  import opened Guard
  import opened Definition
  import opened Entry
  import opened Engine
  import opened EngineSafety
  import opened Threads
  import opened Samples

  // ---------------------------------------------------------------------------------------------------------------
  // Schedules, step by step
  // ---------------------------------------------------------------------------------------------------------------

  ghost predicate Leads(env: Env, s: State, actions: seq<Action>, s': State)
    decreases |actions|
  {
    if actions == [] then s' == s
    else Enabled(env, s, actions[0]) && Leads(env, Next(env, s, actions[0]), actions[1..], s')
  }

  lemma {:induction false} LeadsOn(env: Env, s: State, a: seq<Action>, mid: State, b: seq<Action>, s': State)
    requires Leads(env, s, a, mid) && Leads(env, mid, b, s')
    ensures Leads(env, s, a + b, s')
    decreases |a|
  {
    hide Enabled, Next;
    if a == [] {
      assert a + b == b;
    } else {
      assert (a + b)[0] == a[0] && (a + b)[1..] == a[1..] + b;
      LeadsOn(env, Next(env, s, a[0]), a[1..], mid, b, s');
    }
  }

  lemma Then(env: Env, s: State, done: seq<Action>, mid: State, a: Action)
    requires Leads(env, s, done, mid) && Enabled(env, mid, a)
    ensures Leads(env, s, done + [a], Next(env, mid, a))
  {
    hide Enabled, Next;
    LeadsOn(env, s, done, mid, [a], Next(env, mid, a));
  }

  /** What leads from the empty engine to a state is a schedule that ends there. */
  lemma {:induction false} LeadsFrom(env: Env, first: State, actions: seq<Action>, last: State) returns (states: seq<State>)
    requires Leads(env, first, actions, last)
    ensures |states| == |actions| + 1 && states[0] == first && states[|actions|] == last
    ensures forall i :: 0 <= i < |actions| ==>
              Enabled(env, states[i], actions[i]) && states[i + 1] == Next(env, states[i], actions[i])
    decreases |actions|
  {
    hide Enabled, Next;
    if actions == [] {
      states := [first];
    } else {
      var rest := LeadsFrom(env, Next(env, first, actions[0]), actions[1..], last);
      states := [first] + rest;
      forall i | 0 <= i < |actions|
        ensures Enabled(env, states[i], actions[i]) && states[i + 1] == Next(env, states[i], actions[i])
      {
        if i > 0 {
          assert actions[i] == actions[1..][i - 1] && states[i] == rest[i - 1] && states[i + 1] == rest[i];
        }
      }
    }
  }

  /** No thread is at work. */
  ghost predicate Quiet(s: State) {
    s.held == map[] && s.putting == map[] && forall t :: PcOf(s, t).Idle?
  }

  /** An operation that is free to run and has something to write. */
  ghost predicate Runs(env: Env, s: State, op: Op) {
    && (op.Apply? && op.key.Some? ==> CacheKey(op.id, op.key.value) !in s.es.cache)
    && (match op
        case Put(_, _, _) => PutKey(op) !in s.es.defs
        case Create(id, _, _, _, _) => id !in s.es.instances
        case Apply(id, _, _, _, _, _, _) => id in s.es.instances
        case Delete(id, _) => id in s.es.instances)
    && ToWrite(env, s.es, op).Log?
  }

  function Recorded(env: Env, s: State, op: Op, n: nat): LogRecord
    requires ToWrite(env, s.es, op).Log?
  {
    LogRecord(n, n, ToWrite(env, s.es, op).entry)
  }

  /** One thread runs an operation by itself. */
  lemma Solo(env: Env, s: State, t: nat, op: Op, n: nat) returns (actions: seq<Action>, s': State)
    requires Quiet(s) && Runs(env, s, op)
    ensures Leads(env, s, actions, s') && Quiet(s')
    ensures var rec := Recorded(env, s, op, n);
            s'.log == s.log + [rec] && s'.es == FillCache(WithoutCache(env, s.es, rec), rec)
  {
    hide ToWrite, Commit, Leads;
    LeadsNowhere(env, s);
    var rec := Recorded(env, s, op, n);
    var a0, a1, a2, a3, a4 := Check(t, op), Enter(t), Write(t, n, n), Update(t), Exit(t);
    Then(env, s, [], s, a0);
    var s1 := Next(env, s, a0);
    Then(env, s, [] + [a0], s1, a1);
    var s2 := Next(env, s1, a1);
    Then(env, s, [] + [a0] + [a1], s2, a2);
    var s3 := Next(env, s2, a2);
    assert s3 == AfterWrite(s2, t, op, rec);
    Then(env, s, [] + [a0] + [a1] + [a2], s3, a3);
    var s4 := Next(env, s3, a3);
    assert s4 == AfterUpdate(env, s3, t, op, rec);
    Then(env, s, [] + [a0] + [a1] + [a2] + [a3], s4, a4);
    s' := Next(env, s4, a4);
    actions := [] + [a0] + [a1] + [a2] + [a3] + [a4];
    assert s'.held == map[] && s'.putting == map[];
    assert forall u :: u != t ==> PcOf(s', u) == PcOf(s, u);
  }

  lemma LeadsNowhere(env: Env, s: State)
    ensures Leads(env, s, [], s)
  {
  }

  // ---------------------------------------------------------------------------------------------------------------
  // Two threads at one id or one machine
  // ---------------------------------------------------------------------------------------------------------------

  ghost predicate Clash(op1: Op, op2: Op) {
    || (op1.Create? && op2.Create? && op1.id == op2.id)
    || (op1.Put? && op2.Put? && PutKey(op1) == PutKey(op2))
  }

  function Entering(s: State, op1: Op, op2: Op): State {
    var pcs := s.pcs[1 := Waiting(op1)][2 := Waiting(op2)];
    AfterEnter(AfterEnter(s.(pcs := pcs), 1, op1), 2, op2)
  }

  /** Both threads pass the check for existence before either writes. */
  lemma BothEnter(env: Env, s: State, op1: Op, op2: Op) returns (actions: seq<Action>)
    requires Quiet(s) && Runs(env, s, op1) && Runs(env, s, op2) && Clash(op1, op2)
    ensures Leads(env, s, actions, Entering(s, op1, op2))
  {
    hide ToWrite, Leads;
    LeadsNowhere(env, s);
    var a0, a1, a2, a3 := Check(1, op1), Check(2, op2), Enter(1), Enter(2);
    Then(env, s, [], s, a0);
    var s1 := Next(env, s, a0);
    assert PcOf(s1, 2) == PcOf(s, 2);
    Then(env, s, [] + [a0], s1, a1);
    var s2 := Next(env, s1, a1);
    Then(env, s, [] + [a0] + [a1], s2, a2);
    var s3 := Next(env, s2, a2);
    Then(env, s, [] + [a0] + [a1] + [a2], s3, a3);
    actions := [] + [a0] + [a1] + [a2] + [a3];
  }

  function Writing(env: Env, s: State, op1: Op, op2: Op, n: nat): State
    requires ToWrite(env, s.es, op1).Log? && ToWrite(env, s.es, op2).Log?
  {
    var r1, r2 := Recorded(env, s, op1, n), Recorded(env, s, op2, n + 1);
    AfterWrite(AfterWrite(Entering(s, op1, op2), 1, op1, r1), 2, op2, r2)
  }

  lemma BothWrite(env: Env, s: State, op1: Op, op2: Op, n: nat) returns (actions: seq<Action>)
    requires Quiet(s) && Runs(env, s, op1) && Runs(env, s, op2) && Clash(op1, op2)
    ensures Leads(env, Entering(s, op1, op2), actions, Writing(env, s, op1, op2, n))
  {
    hide ToWrite, Leads;
    var s4 := Entering(s, op1, op2);
    LeadsNowhere(env, s4);
    var a4, a5 := Write(1, n, n), Write(2, n + 1, n + 1);
    Then(env, s4, [], s4, a4);
    var s5 := Next(env, s4, a4);
    Then(env, s4, [] + [a4], s5, a5);
    actions := [] + [a4] + [a5];
  }

  /** The tables after both updates, which may come in the order of the log or not. */
  function BothApplied(env: Env, es: EngineState, r1: LogRecord, r2: LogRecord, swapped: bool): EngineState {
    if swapped then WithoutCache(env, WithoutCache(env, es, r2), r1)
    else WithoutCache(env, WithoutCache(env, es, r1), r2)
  }

  /** Both have applied their records, and neither has left. */
  ghost predicate BothDone(
    env: Env, s: State, r1: LogRecord, r2: LogRecord, op1: Op, op2: Op, swapped: bool, s': State)
  {
    && s'.log == s.log + [r1] + [r2] && s'.es == BothApplied(env, s.es, r1, r2, swapped)
    && s'.held == map[] && s'.putting == map[]
    && PcOf(s', 1) == Working(op1, Applied(r1)) && PcOf(s', 2) == Working(op2, Applied(r2))
    && forall u :: u != 1 && u != 2 ==> PcOf(s', u).Idle?
  }

  lemma DoneTables(env: Env, s: State, r1: LogRecord, r2: LogRecord, op1: Op, op2: Op, swapped: bool, s': State)
    requires BothDone(env, s, r1, r2, op1, op2, swapped, s')
    ensures s'.log == s.log + [r1] + [r2] && s'.es == BothApplied(env, s.es, r1, r2, swapped)
  {
  }

  /** Only this thread, at this operation, holds anything. */
  ghost predicate OnlyHolds(s: State, op: Op, t: nat) {
    if op.Put? then s.held == map[] && s.putting == map[PutKey(op) := t]
    else s.held == map[op.id := t] && s.putting == map[]
  }

  lemma UpdateInTurn(
    env: Env, s: State, t: nat, op: Op, rec: LogRecord, t': nat, op': Op, rec': LogRecord, last: Op, l: nat)
    returns (actions: seq<Action>, s': State)
    requires PcOf(s, t) == Working(op, Written(rec)) && PcOf(s, t') == Working(op', Written(rec')) && t != t'
    requires Clash(op, op') && OnlyHolds(s, last, l) && ((l == t && last == op) || (l == t' && last == op'))
    ensures Leads(env, s, actions, s')
    ensures s'.log == s.log && s'.es == WithoutCache(env, WithoutCache(env, s.es, rec), rec')
    ensures s'.held == map[] && s'.putting == map[]
    ensures PcOf(s', t) == Working(op, Applied(rec)) && PcOf(s', t') == Working(op', Applied(rec'))
    ensures forall u :: u != t && u != t' ==> PcOf(s', u) == PcOf(s, u)
  {
    hide ToWrite, Leads, WithoutCache;
    LeadsNowhere(env, s);
    Then(env, s, [], s, Update(t));
    var s1 := Next(env, s, Update(t));
    Then(env, s, [] + [Update(t)], s1, Update(t'));
    s' := Next(env, s1, Update(t'));
    actions := [] + [Update(t)] + [Update(t')];
  }

  lemma BothUpdate(env: Env, s: State, op1: Op, op2: Op, n: nat, swapped: bool)
    returns (actions: seq<Action>, s': State)
    requires Quiet(s) && Runs(env, s, op1) && Runs(env, s, op2) && Clash(op1, op2)
    ensures Leads(env, Writing(env, s, op1, op2, n), actions, s')
    ensures BothDone(env, s, Recorded(env, s, op1, n), Recorded(env, s, op2, n + 1), op1, op2, swapped, s')
  {
    hide ToWrite, Leads, WithoutCache;
    var s6 := Writing(env, s, op1, op2, n);
    var r1, r2 := Recorded(env, s, op1, n), Recorded(env, s, op2, n + 1);
    assert PcOf(s6, 1) == Working(op1, Written(r1)) && PcOf(s6, 2) == Working(op2, Written(r2));
    assert OnlyHolds(s6, op2, 2) && s6.es == s.es && s6.log == s.log + [r1] + [r2];
    assert forall u :: u != 1 && u != 2 ==> PcOf(s6, u) == PcOf(s, u);
    hide Writing, Runs;
    if swapped {
      actions, s' := UpdateInTurn(env, s6, 2, op2, r2, 1, op1, r1, op2, 2);
    } else {
      actions, s' := UpdateInTurn(env, s6, 1, op1, r1, 2, op2, r2, op2, 2);
    }
    assert forall u :: u != 1 && u != 2 ==> PcOf(s', u) == PcOf(s6, u);
  }

  lemma BothExit(env: Env, s: State, r1: LogRecord, r2: LogRecord, op1: Op, op2: Op, swapped: bool, s8: State)
    returns (actions: seq<Action>, s': State)
    requires BothDone(env, s, r1, r2, op1, op2, swapped, s8)
    ensures Leads(env, s8, actions, s') && Quiet(s')
    ensures s'.log == s8.log && s'.es == FillCache(FillCache(s8.es, r1), r2)
  {
    hide ToWrite, Leads, FillCache, BothApplied;
    LeadsNowhere(env, s8);
    Then(env, s8, [], s8, Exit(1));
    var s9 := Next(env, s8, Exit(1));
    Then(env, s8, [] + [Exit(1)], s9, Exit(2));
    s' := Next(env, s9, Exit(2));
    actions := [] + [Exit(1)] + [Exit(2)];
    assert forall u :: u != 1 && u != 2 ==> PcOf(s', u) == PcOf(s8, u);
  }

  /** Both write before either applies; thread 1 writes first and, unless `swapped`, applies first, too. */
  lemma Together(env: Env, s: State, op1: Op, op2: Op, n: nat, swapped: bool) returns (actions: seq<Action>, s': State)
    requires Quiet(s) && Runs(env, s, op1) && Runs(env, s, op2) && Clash(op1, op2)
    ensures Leads(env, s, actions, s') && Quiet(s')
    ensures var r1, r2 := Recorded(env, s, op1, n), Recorded(env, s, op2, n + 1);
            && s'.log == s.log + [r1] + [r2]
            && s'.es == FillCache(FillCache(BothApplied(env, s.es, r1, r2, swapped), r1), r2)
  {
    var r1, r2 := Recorded(env, s, op1, n), Recorded(env, s, op2, n + 1);
    hide Leads, Entering, Writing, BothApplied, FillCache, ToWrite, BothDone, Quiet;
    var a := BothEnter(env, s, op1, op2);
    var b := BothWrite(env, s, op1, op2, n);
    var c, s8 := BothUpdate(env, s, op1, op2, n, swapped);
    var d;
    d, s' := BothExit(env, s, r1, r2, op1, op2, swapped, s8);
    LeadsOn(env, s, a, Entering(s, op1, op2), b, Writing(env, s, op1, op2, n));
    LeadsOn(env, s, a + b, Writing(env, s, op1, op2, n), c, s8);
    LeadsOn(env, s, a + b + c, s8, d, s');
    actions := a + b + c + d;
    DoneTables(env, s, r1, r2, op1, op2, swapped, s8);
  }

  lemma ReplayTwo(env: Env, log: Log, r1: LogRecord, r2: LogRecord)
    ensures Replay(env, log + [r1] + [r2]) == ReplayEntry(env, ReplayEntry(env, Replay(env, log), r1), r2)
  {
    hide ReplayEntry, LogOk;
    ReplayLast(env, log, r1);
    ReplayLast(env, log + [r1], r2);
  }

  /**
   Wherever two threads create one instance at the same time, and both pass the check before either writes, they can
   bring the engine to rest with an instance that replaying its log would not rebuild, and with one that it would: the
   first to write its record must be the last to apply it.
   */
  lemma TwoCreations(env: Env, s: State, op1: Op, op2: Op, n: nat, swapped: bool)
    returns (actions: seq<Action>, s': State)
    requires Quiet(s) && SameTables(s.es, Replay(env, s.log))
    requires op1.Create? && op2.Create? && op1.id == op2.id && Runs(env, s, op1) && Runs(env, s, op2)
    ensures Leads(env, s, actions, s') && Quiet(s')
    ensures SameTables(s'.es, Replay(env, s'.log)) <==> swapped
  {
    hide Leads, Quiet, Replay;
    actions, s' := Together(env, s, op1, op2, n, swapped);
    var r1, r2 := Recorded(env, s, op1, n), Recorded(env, s, op2, n + 1);
    ReplayTwo(env, s.log, r1, r2);
    assert s'.es.instances[op1.id] == if swapped then Created(r1) else Created(r2);
    assert op1.id !in Replay(env, s.log).instances;
    assert Replay(env, s'.log).instances == Replay(env, s.log).instances[op1.id := Created(r1)];
  }

  /**
   The same for two threads that put one machine: replay rebuilds what they leave if and only if the first to write is
   the last to apply, or both put the same machine.
   */
  lemma TwoPuts(env: Env, s: State, op1: Op, op2: Op, n: nat, swapped: bool)
    returns (actions: seq<Action>, s': State)
    requires Quiet(s) && SameTables(s.es, Replay(env, s.log))
    requires op1.Put? && op2.Put? && PutKey(op1) == PutKey(op2) && Runs(env, s, op1) && Runs(env, s, op2)
    ensures Leads(env, s, actions, s') && Quiet(s')
    ensures SameTables(s'.es, Replay(env, s'.log)) <==>
              || swapped
              || FromJson(env.checksum, op1.name, op1.version, op1.json)
              == FromJson(env.checksum, op2.name, op2.version, op2.json)
  {
    hide Leads, Quiet, Replay, FromJson;
    actions, s' := Together(env, s, op1, op2, n, swapped);
    var r1, r2 := Recorded(env, s, op1, n), Recorded(env, s, op2, n + 1);
    ReplayTwo(env, s.log, r1, r2);
    NullIsNoDefinition(env, op1.name, op1.version);
    var key := PutKey(op1);
    var m1 := FromJson(env.checksum, op1.name, op1.version, op1.json).value;
    var m2 := FromJson(env.checksum, op2.name, op2.version, op2.json).value;
    assert s'.es.defs == s.es.defs[key := if swapped then m1 else m2];
    assert Replay(env, s'.log).defs == s.es.defs[key := m1];
    assert Replay(env, s'.log).defs[key] == m1;
  }

  // ---------------------------------------------------------------------------------------------------------------
  // From the empty engine
  // ---------------------------------------------------------------------------------------------------------------

  function PutSample(meta: Option<Value>): Op { Put("m", 1, Sample(meta)) }
  function CreateX(ctx: Value): Op { Create("X", "m", 1, ctx, None) }

  lemma StartIsQuiet(env: Env)
    ensures Quiet(START) && SameTables(START.es, Replay(env, START.log))
  {
  }

  /** A machine alone: the state every example starts from. */
  lemma WithMachine(env: Env) returns (actions: seq<Action>, s: State)
    ensures Leads(env, START, actions, s) && Quiet(s) && SameTables(s.es, Replay(env, s.log))
    ensures s.es == EngineState(map[MachineKey("m", 1) := SampleMachine(env, None)], map[], map[])
  {
    hide FromJson, Leads, Sample, SampleMachine;
    SampleBuilds(env, None);
    StartIsQuiet(env);
    var op := PutSample(None);
    actions, s := Solo(env, START, 1, op, 1);
    var rec := Recorded(env, START, op, 1);
    NullIsNoDefinition(env, "m", 1);
    ReplayLast(env, [], rec);
    assert EMPTY.defs[MachineKey("m", 1) := SampleMachine(env, None)] == map[MachineKey("m", 1) := SampleMachine(env, None)];
  }

  /** There is a schedule of overlapping creations that ends in disagreement. */
  lemma OverlappingCreations(env: Env) returns (states: seq<State>, actions: seq<Action>)
    ensures IsSchedule(env, states, actions) && Quiet(states[|actions|])
    ensures !SameTables(states[|actions|].es, Replay(env, states[|actions|].log))
  {
    hide FromJson, Leads, Quiet, SampleMachine, Replay, SameTables;
    var a, s := WithMachine(env);
    var op := CreateX(Null);
    var b, s' := TwoCreations(env, s, op, op, 2, false);
    LeadsOn(env, START, a, s, b, s');
    actions := a + b;
    states := LeadsFrom(env, START, actions, s');
  }

  /** There is a schedule of overlapping puts that ends in disagreement. */
  lemma OverlappingPuts(env: Env) returns (states: seq<State>, actions: seq<Action>)
    ensures IsSchedule(env, states, actions) && Quiet(states[|actions|])
    ensures !SameTables(states[|actions|].es, Replay(env, states[|actions|].log))
  {
    hide FromJson, Leads, Quiet, Replay, SameTables, Sample;
    SampleBuilds(env, None);
    SampleBuilds(env, Some(Bool(true)));
    StartIsQuiet(env);
    var s';
    actions, s' := TwoPuts(env, START, PutSample(None), PutSample(Some(Bool(true))), 1, false);
    assert SampleMachine(env, None).raw != SampleMachine(env, Some(Bool(true))).raw;
    states := LeadsFrom(env, START, actions, s');
  }
}
