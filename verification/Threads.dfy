/**
 Interleaved threads on one engine. Each operation is a series of atomic steps: check the cache, take the instance's
 write lock, write the log record, update the tables, fill the cache and release. Creating an instance and putting a
 machine take no lock, so two threads may do so for one id or one machine at the same time; schedules in which none
 do are called `Orderly`.
 */
module Threads {
  import opened Common
  import opened Json
  import opened Guard
  import opened Definition
  import opened Entry
  import opened Engine
  import opened EngineSafety

  datatype Stage = Entered | Written(rec: LogRecord) | Applied(rec: LogRecord)

  datatype Pc = Idle | Waiting(op: Op) | Working(op: Op, stage: Stage)

  /**
   `held`: who last entered an instance, to lock it or to create it, and is not done. `putting`: who last began to put
   a machine and is not done. Only the locks among them keep others out.
   */
  datatype State = State(
    es: EngineState, log: Log, held: map<string, nat>, putting: map<MachineKey, nat>, pcs: map<nat, Pc>)

  function PcOf(s: State, t: nat): Pc { if t in s.pcs then s.pcs[t] else Idle }

  datatype Action =
    | Check(t: nat, op: Op)
    | Enter(t: nat)
    | Write(t: nat, sequence: nat, offset: nat)
    | Leave(t: nat)
    | Update(t: nat)
    | Exit(t: nat)

  function PutKey(op: Op): MachineKey
    requires op.Put?
  {
    MachineKey(op.name, op.version)
  }

  /** What the thread writes, given that its lock or its claim keeps others away. */
  function ToWrite(env: Env, es: EngineState, op: Op): Decision {
    match op
    case Put(name, version, json) =>
      (match FromJson(env.checksum, name, version, json)
       case Ok(m) => Log(PutMachine(name, version, m.checksum, json))
       case Err(e) => Reply(Failed(BadDefinition(e))))
    case Create(id, machine, version, ctx, key) =>
      if MachineKey(machine, version) !in es.defs then Reply(Failed(MachineVersionNotFound))
      else Log(CreateInstance(id, machine, version, es.defs[MachineKey(machine, version)].initial, ctx, key))
    case Apply(id, _, _, _, _, _, _) =>
      if id !in es.instances then Reply(Failed(InstanceNotFound))
      else DecideApplyOn(es, es.instances[id], op)
    case Delete(_, _) => DecideDelete(es, op)
  }

  /** A thread has the instance's write lock. Replacing an entry of the table waits for it, too. */
  predicate Locked(s: State, id: string) {
    id in s.held && var pc := PcOf(s, s.held[id]); pc.Working? && (pc.op.Apply? || pc.op.Delete?)
  }

  predicate Enabled(env: Env, s: State, a: Action) {
    var pc := PcOf(s, a.t);
    match a
    case Check(_, op) => pc.Idle? && (op.Apply? && op.key.Some? ==> CacheKey(op.id, op.key.value) !in s.es.cache)
    case Enter(_) =>
      && pc.Waiting?
      && (match pc.op
          case Put(_, _, _) => PutKey(pc.op) !in s.es.defs
          case Create(id, _, _, _, _) => id !in s.es.instances
          case Apply(id, _, _, _, _, _, _) => id in s.es.instances && !Locked(s, id)
          case Delete(id, _) => id in s.es.instances && !Locked(s, id))
    case Write(_, _, _) => pc.Working? && pc.stage.Entered? && ToWrite(env, s.es, pc.op).Log?
    case Leave(_) => pc.Waiting? || (pc.Working? && pc.stage.Entered?)
    case Update(_) => pc.Working? && pc.stage.Written? && (pc.op.Create? ==> !Locked(s, pc.op.id))
    case Exit(_) => pc.Working? && pc.stage.Applied?
  }

  function Claim(s: State, t: nat, op: Op): State {
    if op.Put? then s.(putting := s.putting[PutKey(op) := t]) else s.(held := s.held[op.id := t])
  }

  /** Thread `t` gives up what it entered. */
  function GiveUp(s: State, t: nat, op: Op): State {
    if op.Put? then
      if PutKey(op) in s.putting && s.putting[PutKey(op)] == t then s.(putting := s.putting - {PutKey(op)}) else s
    else if op.id in s.held && s.held[op.id] == t then s.(held := s.held - {op.id})
    else s
  }

  function Release(s: State, t: nat, op: Op): State { GiveUp(s.(pcs := s.pcs[t := Idle]), t, op) }

  /** The state after thread `t` applied `rec`; who creates an instance or puts a machine is done then. */
  function AfterUpdate(env: Env, s: State, t: nat, op: Op, rec: LogRecord): State {
    var s' := s.(es := WithoutCache(env, s.es, rec), pcs := s.pcs[t := Working(op, Applied(rec))]);
    if op.Create? || op.Put? then GiveUp(s', t, op) else s'
  }

  /** The tables after the update, the cache not yet filled. */
  function WithoutCache(env: Env, es: EngineState, rec: LogRecord): EngineState {
    Commit(env, es, rec).(cache := es.cache)
  }

  function FillCache(es: EngineState, rec: LogRecord): EngineState {
    if rec.entry.ApplyEvent? && rec.entry.idempotencyKey.Some? then
      es.(cache := es.cache[CacheKey(rec.entry.instanceId, rec.entry.idempotencyKey.value) := ResultOf(rec)])
    else es
  }

  function Next(env: Env, s: State, a: Action): State
    requires Enabled(env, s, a)
  {
    var t, pc := a.t, PcOf(s, a.t);
    match a
    case Check(_, op) => s.(pcs := s.pcs[t := Waiting(op)])
    case Enter(_) => Claim(s.(pcs := s.pcs[t := Working(pc.op, Entered)]), t, pc.op)
    case Write(_, sequence, offset) =>
      var rec := LogRecord(sequence, offset, ToWrite(env, s.es, pc.op).entry);
      s.(log := s.log + [rec], pcs := s.pcs[t := Working(pc.op, Written(rec))])
    case Leave(_) => if pc.Waiting? then s.(pcs := s.pcs[t := Idle]) else Release(s, t, pc.op)
    case Update(_) => AfterUpdate(env, s, t, pc.op, pc.stage.rec)
    case Exit(_) => Release(s.(es := FillCache(s.es, pc.stage.rec)), t, pc.op)
  }

  // ---------------------------------------------------------------------------------------------------------------
  // An instance and its own records
  // ---------------------------------------------------------------------------------------------------------------

  /** The instance's own records, in log order. */
  function Own(log: Log, id: string): Log {
    if log == [] then []
    else
      var before := Own(log[..|log| - 1], id);
      if About(log[|log| - 1].entry, id) then before + [log[|log| - 1]] else before
  }

  /** The instance that its own records describe. */
  function Fold(own: Log): Option<Instance> {
    if own == [] then None
    else
      var rec := own[|own| - 1];
      match Fold(own[..|own| - 1])
      case None => if rec.entry.CreateInstance? then Some(Created(rec)) else None
      case Some(i) => Some(Replayed(i, rec))
  }

  /** Replaying the whole log, each instance sees only its own records. */
  lemma {:induction false} ReplayIsFold(env: Env, log: Log, id: string)
    ensures At(Replay(env, log).instances, id) == Fold(Own(log, id))
  {
    hide FromJson;
    if log == [] {
    } else {
      ReplayIsFold(env, log[..|log| - 1], id);
    }
  }

  lemma OwnLast(log: Log, rec: LogRecord, id: string)
    ensures Own(log + [rec], id) == if About(rec.entry, id) then Own(log, id) + [rec] else Own(log, id)
  {
    assert (log + [rec])[..|log|] == log;
  }

  lemma FoldLast(own: Log, rec: LogRecord)
    ensures Fold(own + [rec])
         == match Fold(own)
            case None => if rec.entry.CreateInstance? then Some(Created(rec)) else None
            case Some(i) => Some(Replayed(i, rec))
  {
    assert (own + [rec])[..|own|] == own;
  }

  // ---------------------------------------------------------------------------------------------------------------
  // Invariant
  // ---------------------------------------------------------------------------------------------------------------

  ghost predicate Matches(i: Option<Instance>, folded: Option<Instance>) {
    (i.Some? <==> folded.Some?) && (i.Some? ==> SameInstance(i.value, folded.value))
  }

  /** The instance is what its own records say. */
  ghost predicate Settled(s: State, id: string) {
    Matches(At(s.es.instances, id), Fold(Own(s.log, id)))
  }

  /** The instance is what its own records say but for the last one, which is `rec`. */
  ghost predicate Lags(s: State, id: string, rec: LogRecord) {
    var own := Own(s.log, id);
    own != [] && own[|own| - 1] == rec && Matches(At(s.es.instances, id), Fold(own[..|own| - 1]))
  }

  /** The record a thread has written for an instance and not yet applied. */
  function Unapplied(s: State, id: string): Option<LogRecord> {
    if id !in s.held then None
    else
      var pc := PcOf(s, s.held[id]);
      if pc.Working? && pc.stage.Written? then Some(pc.stage.rec) else None
  }

  ghost predicate InstanceInv(s: State, id: string) {
    match Unapplied(s, id)
    case None => Settled(s, id)
    case Some(rec) => Lags(s, id, rec)
  }

  function MachineRecord(s: State, key: MachineKey): Option<LogRecord> {
    if key !in s.putting then None
    else
      var pc := PcOf(s, s.putting[key]);
      if pc.Working? && pc.stage.Written? then Some(pc.stage.rec) else None
  }

  /** Definitions agree with the replayed ones, except that a machine whose record is written may not be in yet. */
  ghost predicate MachineInv(env: Env, s: State, key: MachineKey) {
    var replayed := Replay(env, s.log).defs;
    match MachineRecord(s, key)
    case None => (key in s.es.defs <==> key in replayed) && (key in replayed ==> s.es.defs[key] == replayed[key])
    case Some(rec) =>
      && key !in s.es.defs && rec.entry.PutMachine? && key == MachineKey(rec.entry.machine, rec.entry.version)
      && var m := FromJson(env.checksum, key.name, key.version, rec.entry.definition);
         m.Ok? && key in replayed && replayed[key] == m.value
  }

  /** A thread at work holds its instance or machine, and its record is its operation's. */
  ghost predicate ThreadInv(s: State, t: nat) {
    var pc := PcOf(s, t);
    pc.Working? ==>
      && (if pc.op.Put? then pc.stage.Applied? || (PutKey(pc.op) in s.putting && s.putting[PutKey(pc.op)] == t)
          else (pc.op.Create? && pc.stage.Applied?) || (pc.op.id in s.held && s.held[pc.op.id] == t))
      && (!pc.stage.Applied? ==>
            match pc.op
            case Put(_, _, _) => PutKey(pc.op) !in s.es.defs
            case Create(id, _, _, _, _) => id !in s.es.instances
            case Apply(id, _, _, _, _, _, _) => id in s.es.instances
            case Delete(id, _) => id in s.es.instances)
      && (pc.stage.Written? ==> RecordOfOp(pc.op, pc.stage.rec))
  }

  ghost predicate RecordOfOp(op: Op, rec: LogRecord) {
    match op
    case Put(name, version, _) => rec.entry.PutMachine? && MachineKey(rec.entry.machine, rec.entry.version) == PutKey(op)
    case Create(id, _, _, _, _) => CreatesId(rec.entry, id)
    case Apply(id, _, _, _, _, _, _) => rec.entry.ApplyEvent? && rec.entry.instanceId == id
    case Delete(id, _) => rec.entry.DeleteInstance? && rec.entry.instanceId == id
  }

  /** What is held is held by a thread at work on it. */
  ghost predicate HeldInv(s: State) {
    && (forall id :: id in s.held ==>
          var pc := PcOf(s, s.held[id]);
          pc.Working? && !pc.op.Put? && pc.op.id == id && !(pc.op.Create? && pc.stage.Applied?))
    && (forall key :: key in s.putting ==>
          var pc := PcOf(s, s.putting[key]);
          pc.Working? && pc.op.Put? && PutKey(pc.op) == key && !pc.stage.Applied?)
  }

  ghost predicate Inv(env: Env, s: State) {
    && HeldInv(s) && LogOk(env, s.log)
    && (forall t :: ThreadInv(s, t))
    && (forall id :: InstanceInv(s, id))
    && (forall key :: MachineInv(env, s, key))
  }

  // ---------------------------------------------------------------------------------------------------------------
  // Every step keeps the invariant
  // ---------------------------------------------------------------------------------------------------------------

  /** Only thread `t` moved, and it holds nothing. */
  lemma CheckKeeps(env: Env, s: State, t: nat, pc': Pc)
    requires Inv(env, s) && !PcOf(s, t).Working? && !pc'.Working?
    ensures Inv(env, s.(pcs := s.pcs[t := pc']))
  {
    hide LogOk, Replay, Own, Fold, FromJson;
    var s' := s.(pcs := s.pcs[t := pc']);
    assert forall u :: u != t ==> PcOf(s', u) == PcOf(s, u);
    forall u ensures ThreadInv(s', u) { assert ThreadInv(s, u); }
    forall id ensures InstanceInv(s', id) { assert InstanceInv(s, id); }
    forall key ensures MachineInv(env, s', key) { assert MachineInv(env, s, key); }
  }

  /** No other thread is creating the instance, or putting the machine, that this step sets out to create or put. */
  predicate Apart(s: State, a: Action) {
    a.Enter? && PcOf(s, a.t).Waiting? ==>
      var op := PcOf(s, a.t).op;
      (op.Create? ==> op.id !in s.held) && (op.Put? ==> PutKey(op) !in s.putting)
  }

  /** In orderly states only a lock keeps a thread out of an instance that exists. */
  lemma OnlyLocks(s: State, id: string)
    requires HeldInv(s) && (forall t :: ThreadInv(s, t)) && id in s.es.instances && !Locked(s, id)
    ensures id !in s.held
  {
    assert id in s.held ==> ThreadInv(s, s.held[id]);
  }

  function AfterEnter(s: State, t: nat, op: Op): State {
    Claim(s.(pcs := s.pcs[t := Working(op, Entered)]), t, op)
  }

  /** Thread `t` may set out on `op`, which is nobody else's. */
  ghost predicate MayEnter(s: State, t: nat, op: Op) {
    && PcOf(s, t) == Waiting(op)
    && (if op.Put? then PutKey(op) !in s.putting && PutKey(op) !in s.es.defs
        else op.id !in s.held && (op.Create? <==> op.id !in s.es.instances))
  }

  lemma EnterIsFree(env: Env, s: State, a: Action)
    requires Inv(env, s) && a.Enter? && Enabled(env, s, a) && Apart(s, a)
    ensures MayEnter(s, a.t, PcOf(s, a.t).op)
  {
    hide LogOk, InstanceInv, MachineInv;
    var op := PcOf(s, a.t).op;
    if op.Apply? || op.Delete? {
      OnlyLocks(s, op.id);
    }
  }

  lemma EnterHeld(s: State, t: nat, op: Op)
    requires HeldInv(s) && MayEnter(s, t, op)
    ensures HeldInv(AfterEnter(s, t, op))
  {
    var s' := AfterEnter(s, t, op);
    assert forall u :: u != t ==> PcOf(s', u) == PcOf(s, u);
  }

  lemma EnterThread(s: State, t: nat, op: Op, u: nat)
    requires ThreadInv(s, u) && MayEnter(s, t, op)
    ensures ThreadInv(AfterEnter(s, t, op), u)
  {
    var s' := AfterEnter(s, t, op);
    assert u != t ==> PcOf(s', u) == PcOf(s, u);
  }

  lemma EnterInstance(s: State, t: nat, op: Op, id: string)
    requires HeldInv(s) && InstanceInv(s, id) && MayEnter(s, t, op)
    ensures InstanceInv(AfterEnter(s, t, op), id)
  {
    hide Own, Fold;
    assert Unapplied(AfterEnter(s, t, op), id) == Unapplied(s, id);
  }

  lemma EnterMachine(env: Env, s: State, t: nat, op: Op, key: MachineKey)
    requires HeldInv(s) && MachineInv(env, s, key) && MayEnter(s, t, op)
    ensures MachineInv(env, AfterEnter(s, t, op), key)
  {
    hide Replay, FromJson;
    assert MachineRecord(AfterEnter(s, t, op), key) == MachineRecord(s, key);
  }

  lemma EnterKeeps(env: Env, s: State, a: Action)
    requires Inv(env, s) && a.Enter? && Enabled(env, s, a) && Apart(s, a)
    ensures Inv(env, Next(env, s, a))
  {
    var t, op := a.t, PcOf(s, a.t).op;
    assert Next(env, s, a) == AfterEnter(s, t, op);
    EnterIsFree(env, s, a);
    hide LogOk, HeldInv, ThreadInv, InstanceInv, MachineInv, MayEnter;
    EnterHeld(s, t, op);
    forall u ensures ThreadInv(AfterEnter(s, t, op), u) { EnterThread(s, t, op, u); }
    forall id ensures InstanceInv(AfterEnter(s, t, op), id) { EnterInstance(s, t, op, id); }
    forall key ensures MachineInv(env, AfterEnter(s, t, op), key) { EnterMachine(env, s, t, op, key); }
  }

  lemma LeaveKeeps(env: Env, s: State, t: nat)
    requires Inv(env, s) && PcOf(s, t).Working? && !PcOf(s, t).stage.Written?
    ensures Inv(env, Release(s, t, PcOf(s, t).op))
  {
    hide LogOk, Replay, Own, Fold, FromJson;
    var op := PcOf(s, t).op;
    var s' := Release(s, t, op);
    assert ThreadInv(s, t);
    assert forall u :: u != t ==> PcOf(s', u) == PcOf(s, u);
    assert PcOf(s', t) == Idle;
    forall u ensures ThreadInv(s', u) { assert ThreadInv(s, u); }
    forall id ensures InstanceInv(s', id) { assert InstanceInv(s, id); }
    forall key ensures MachineInv(env, s', key) { assert MachineInv(env, s, key); }
  }

  lemma ExitKeeps(env: Env, s: State, a: Action)
    requires Inv(env, s) && a.Exit? && Enabled(env, s, a)
    ensures Inv(env, Next(env, s, a))
  {
    hide LogOk, Replay, Own, Fold, FromJson;
    var s1 := s.(es := FillCache(s.es, PcOf(s, a.t).stage.rec));
    forall u ensures ThreadInv(s1, u) { assert ThreadInv(s, u); }
    forall id ensures InstanceInv(s1, id) { assert InstanceInv(s, id); }
    forall key ensures MachineInv(env, s1, key) { assert MachineInv(env, s, key); }
    assert PcOf(s1, a.t) == PcOf(s, a.t);
    LeaveKeeps(env, s1, a.t);
  }

  /** A machine known to the engine is the one that replay knows. */
  lemma LiveDefIsReplayed(env: Env, s: State, key: MachineKey)
    requires MachineInv(env, s, key) && key in s.es.defs
    ensures key in Replay(env, s.log).defs && Replay(env, s.log).defs[key] == s.es.defs[key]
  {
    hide FromJson, Replay;
  }

  /** Nobody else can interfere with what a thread holds, so what it writes is admissible where it stands in the log. */
  lemma WritesAdmissible(env: Env, s: State, t: nat)
    requires Inv(env, s) && PcOf(s, t).Working? && PcOf(s, t).stage.Entered?
    requires ToWrite(env, s.es, PcOf(s, t).op).Log?
    ensures Admissible(env, Replay(env, s.log), ToWrite(env, s.es, PcOf(s, t).op).entry)
  {
    hide FromJson, Holds, GetTransition, Replay, LogOk, Own, Fold;
    var op := PcOf(s, t).op;
    assert ThreadInv(s, t);
    if op.Put? {
      assert MachineInv(env, s, PutKey(op));
    } else {
      assert InstanceInv(s, op.id) && Settled(s, op.id);
      ReplayIsFold(env, s.log, op.id);
      if op.Create? {
        LiveDefIsReplayed(env, s, MachineKey(op.machine, op.version));
      } else if op.Apply? {
        LiveDefIsReplayed(env, s, KeyOf(s.es.instances[op.id]));
      }
    }
  }

  lemma WrittenIsOfOp(env: Env, es: EngineState, op: Op, rec: LogRecord)
    requires ToWrite(env, es, op) == Log(rec.entry)
    ensures RecordOfOp(op, rec)
    ensures forall id :: About(rec.entry, id) <==> !op.Put? && op.id == id
    ensures op.Put? ==> rec.entry.definition == op.json && FromJson(env.checksum, op.name, op.version, op.json).Ok?
  {
    hide FromJson, Holds, GetTransition;
  }

  /** Replay changes definitions only for the machine of the record. */
  lemma ReplayDefs(env: Env, es: EngineState, rec: LogRecord, key: MachineKey)
    requires Admissible(env, es, rec.entry)
    ensures var after := ReplayEntry(env, es, rec).defs;
            if rec.entry.PutMachine? && MachineKey(rec.entry.machine, rec.entry.version) == key then
              && FromJson(env.checksum, key.name, key.version, rec.entry.definition).Ok?
              && key in after && after[key] == FromJson(env.checksum, key.name, key.version, rec.entry.definition).value
            else
              (key in after <==> key in es.defs) && (key in after ==> after[key] == es.defs[key])
  {
    hide FromJson, Holds, GetTransition;
    if rec.entry.PutMachine? {
      NullIsNoDefinition(env, rec.entry.machine, rec.entry.version);
    }
  }

  /** The state after thread `t` wrote `rec`. */
  function AfterWrite(s: State, t: nat, op: Op, rec: LogRecord): State {
    s.(log := s.log + [rec], pcs := s.pcs[t := Working(op, Written(rec))])
  }

  /** Thread `t`, inside its operation, may write `rec`. */
  ghost predicate MayWrite(env: Env, s: State, t: nat, op: Op, rec: LogRecord) {
    && Inv(env, s) && PcOf(s, t) == Working(op, Entered) && RecordOfOp(op, rec)
    && Admissible(env, Replay(env, s.log), rec.entry)
  }

  lemma WriteInstance(env: Env, s: State, t: nat, op: Op, rec: LogRecord, id: string)
    requires MayWrite(env, s, t, op, rec)
    ensures InstanceInv(AfterWrite(s, t, op, rec), id)
  {
    hide LogOk, Replay, Own, Fold, FromJson, Admissible, MachineInv;
    var s' := AfterWrite(s, t, op, rec);
    assert ThreadInv(s, t) && InstanceInv(s, id);
    OwnLast(s.log, rec, id);
    var own := Own(s.log, id);
    assert (own + [rec])[..|own|] == own;
    if op.Put? || op.id != id {
      assert Unapplied(s', id) == Unapplied(s, id);
    }
  }

  lemma WriteMachine(env: Env, s: State, t: nat, op: Op, rec: LogRecord, key: MachineKey)
    requires MayWrite(env, s, t, op, rec)
    ensures MachineInv(env, AfterWrite(s, t, op, rec), key)
  {
    ReplayDefs(env, Replay(env, s.log), rec, key);
    ReplayLast(env, s.log, rec);
    hide LogOk, Replay, ReplayEntry, FromJson, Admissible, InstanceInv;
    var s' := AfterWrite(s, t, op, rec);
    assert ThreadInv(s, t) && MachineInv(env, s, key);
    if !op.Put? || PutKey(op) != key {
      assert MachineRecord(s', key) == MachineRecord(s, key);
    }
  }

  lemma WriteThreads(env: Env, s: State, t: nat, op: Op, rec: LogRecord)
    requires MayWrite(env, s, t, op, rec)
    ensures HeldInv(AfterWrite(s, t, op, rec)) && forall u :: ThreadInv(AfterWrite(s, t, op, rec), u)
  {
    hide LogOk, Replay, FromJson, Admissible, InstanceInv, MachineInv;
    var s' := AfterWrite(s, t, op, rec);
    assert forall u :: u != t ==> PcOf(s', u) == PcOf(s, u);
    forall u ensures ThreadInv(s', u) { assert ThreadInv(s, u) && ThreadInv(s, t); }
  }

  lemma WriteKeeps(env: Env, s: State, a: Action)
    requires Inv(env, s) && a.Write? && Enabled(env, s, a)
    ensures Inv(env, Next(env, s, a))
  {
    hide LogOk, Replay, ToWrite, Admissible, InstanceInv, MachineInv, ThreadInv, HeldInv;
    var t, op := a.t, PcOf(s, a.t).op;
    var rec := LogRecord(a.sequence, a.offset, ToWrite(env, s.es, op).entry);
    WritesAdmissible(env, s, t);
    ReplayLast(env, s.log, rec);
    WrittenIsOfOp(env, s.es, op, rec);
    var s' := AfterWrite(s, t, op, rec);
    assert Next(env, s, a) == s';
    WriteThreads(env, s, t, op, rec);
    forall id ensures InstanceInv(s', id) { WriteInstance(env, s, t, op, rec, id); }
    forall key ensures MachineInv(env, s', key) { WriteMachine(env, s, t, op, rec, key); }
  }

  /** Applying the record that an instance lags by settles it. */
  lemma UpdateSettles(env: Env, s: State, op: Op, rec: LogRecord, s': State)
    requires !op.Put? && RecordOfOp(op, rec) && Lags(s, op.id, rec)
    requires op.Create? <==> op.id !in s.es.instances
    requires s' == s.(es := WithoutCache(env, s.es, rec), pcs := s'.pcs, held := s'.held)
    ensures Settled(s', op.id)
    ensures s'.es.defs == s.es.defs && forall id :: id != op.id ==> At(s'.es.instances, id) == At(s.es.instances, id)
  {
    hide FromJson, Own, Fold;
    var own := Own(s.log, op.id);
    var before := own[..|own| - 1];
    assert own == before + [rec];
    FoldLast(before, rec);
  }

  /** Thread `t` has written `rec` and not yet applied it. */
  ghost predicate MayUpdate(env: Env, s: State, t: nat, op: Op, rec: LogRecord) {
    Inv(env, s) && PcOf(s, t) == Working(op, Written(rec))
  }

  lemma UpdateInstance(env: Env, s: State, t: nat, op: Op, rec: LogRecord, id: string)
    requires MayUpdate(env, s, t, op, rec)
    ensures InstanceInv(AfterUpdate(env, s, t, op, rec), id)
  {
    hide LogOk, Replay, Own, Fold, FromJson, MachineInv;
    var s' := AfterUpdate(env, s, t, op, rec);
    assert ThreadInv(s, t) && InstanceInv(s, id);
    if op.Put? {
      assert s'.es.instances == s.es.instances && Unapplied(s', id) == Unapplied(s, id);
    } else {
      assert InstanceInv(s, op.id);
      UpdateSettles(env, s, op, rec, s');
      if op.id != id {
        assert Unapplied(s', id) == Unapplied(s, id);
      }
    }
  }

  lemma UpdateMachine(env: Env, s: State, t: nat, op: Op, rec: LogRecord, key: MachineKey)
    requires MayUpdate(env, s, t, op, rec)
    ensures MachineInv(env, AfterUpdate(env, s, t, op, rec), key)
  {
    hide LogOk, Replay, FromJson, InstanceInv;
    var s' := AfterUpdate(env, s, t, op, rec);
    assert ThreadInv(s, t) && MachineInv(env, s, key);
    if !op.Put? || PutKey(op) != key {
      assert MachineRecord(s', key) == MachineRecord(s, key);
    }
  }

  lemma UpdateHeld(env: Env, s: State, t: nat, op: Op, rec: LogRecord)
    requires HeldInv(s) && PcOf(s, t) == Working(op, Written(rec))
    ensures HeldInv(AfterUpdate(env, s, t, op, rec))
  {
    hide WithoutCache;
    var s' := AfterUpdate(env, s, t, op, rec);
    assert forall u :: u != t ==> PcOf(s', u) == PcOf(s, u);
  }

  lemma UpdateThread(env: Env, s: State, t: nat, op: Op, rec: LogRecord, u: nat)
    requires ThreadInv(s, t) && ThreadInv(s, u) && PcOf(s, t) == Working(op, Written(rec))
    ensures ThreadInv(AfterUpdate(env, s, t, op, rec), u)
  {
    hide FromJson;
    var s' := AfterUpdate(env, s, t, op, rec);
    assert u != t ==> PcOf(s', u) == PcOf(s, u);
  }

  lemma UpdateKeeps(env: Env, s: State, a: Action)
    requires Inv(env, s) && a.Update? && Enabled(env, s, a)
    ensures Inv(env, Next(env, s, a))
  {
    hide LogOk, Replay, InstanceInv, MachineInv, ThreadInv, HeldInv, WithoutCache;
    var t, pc := a.t, PcOf(s, a.t);
    var op, rec := pc.op, pc.stage.rec;
    var s' := AfterUpdate(env, s, t, op, rec);
    assert Next(env, s, a) == s';
    UpdateHeld(env, s, t, op, rec);
    forall u ensures ThreadInv(s', u) { UpdateThread(env, s, t, op, rec, u); }
    forall id ensures InstanceInv(s', id) { UpdateInstance(env, s, t, op, rec, id); }
    forall key ensures MachineInv(env, s', key) { UpdateMachine(env, s, t, op, rec, key); }
  }

  lemma NextKeeps(env: Env, s: State, a: Action)
    requires Inv(env, s) && Enabled(env, s, a) && Apart(s, a)
    ensures Inv(env, Next(env, s, a))
  {
    hide Inv, Enabled;
    match a
    case Check(t, op) => CheckStep(env, s, a);
    case Enter(_) => EnterKeeps(env, s, a);
    case Write(_, _, _) => WriteKeeps(env, s, a);
    case Leave(_) => LeaveStep(env, s, a);
    case Update(_) => UpdateKeeps(env, s, a);
    case Exit(_) => ExitKeeps(env, s, a);
  }

  lemma CheckStep(env: Env, s: State, a: Action)
    requires Inv(env, s) && a.Check? && Enabled(env, s, a)
    ensures Inv(env, Next(env, s, a))
  {
    hide Inv;
    CheckKeeps(env, s, a.t, Waiting(a.op));
  }

  lemma LeaveStep(env: Env, s: State, a: Action)
    requires Inv(env, s) && a.Leave? && Enabled(env, s, a)
    ensures Inv(env, Next(env, s, a))
  {
    hide Inv;
    if PcOf(s, a.t).Waiting? {
      CheckKeeps(env, s, a.t, Idle);
    } else {
      LeaveKeeps(env, s, a.t);
    }
  }

  // ---------------------------------------------------------------------------------------------------------------
  // All interleavings
  // ---------------------------------------------------------------------------------------------------------------

  const START: State := State(EMPTY, [], map[], map[], map[])

  /** An interleaving: a schedule of steps, each enabled where it is taken. */
  ghost predicate IsSchedule(env: Env, states: seq<State>, actions: seq<Action>) {
    && |states| == |actions| + 1 && states[0] == START
    && forall i :: 0 <= i < |actions| ==>
         Enabled(env, states[i], actions[i]) && states[i + 1] == Next(env, states[i], actions[i])
  }

  /** No two threads create one instance, or put one machine, at the same time. */
  ghost predicate Orderly(states: seq<State>, actions: seq<Action>)
    requires |states| == |actions| + 1
  {
    forall i :: 0 <= i < |actions| ==> Apart(states[i], actions[i])
  }

  lemma StartInv(env: Env)
    ensures Inv(env, START)
  {
    hide FromJson;
  }

  lemma {:induction false} ScheduleInv(env: Env, states: seq<State>, actions: seq<Action>, k: nat)
    requires IsSchedule(env, states, actions) && Orderly(states, actions) && k < |states|
    ensures Inv(env, states[k])
    decreases k
  {
    hide Inv, Enabled, Next, Apart;
    if k == 0 {
      StartInv(env);
    } else {
      ScheduleInv(env, states, actions, k - 1);
      NextKeeps(env, states[k - 1], actions[k - 1]);
    }
  }

  /**
   In every state of every interleaving, an instance that nobody holds is the fold of its own log records, and one
   that is held is too, or lags by exactly its last record, which its holder is about to apply.
   */
  lemma InstancesFollowTheirRecords(env: Env, states: seq<State>, actions: seq<Action>, k: nat, id: string)
    requires IsSchedule(env, states, actions) && Orderly(states, actions) && k < |states|
    ensures var s := states[k];
            && (id !in s.held ==> Settled(s, id))
            && (id in s.held ==>
                  || Settled(s, id)
                  || exists op, rec :: PcOf(s, s.held[id]) == Working(op, Written(rec)) && Lags(s, id, rec))
  {
    hide Settled, Lags, MachineInv, ThreadInv, LogOk;
    ScheduleInv(env, states, actions, k);
    var s := states[k];
    assert InstanceInv(s, id);
    if id in s.held && Unapplied(s, id).Some? {
      var pc := PcOf(s, s.held[id]);
      assert pc == Working(pc.op, Written(pc.stage.rec));
    }
  }

  /** Chain safety holds under every interleaving. */
  lemma InterleavedLogsAreSafe(env: Env, states: seq<State>, actions: seq<Action>, k: nat, r: nat)
    requires IsSchedule(env, states, actions) && Orderly(states, actions) && k < |states| && r < |states[k].log|
    ensures var log := states[k].log;
            && (log[r].entry.CreateInstance? ==> GoodCreation(Replay(env, log).defs, log, r))
            && (log[r].entry.ApplyEvent? ==> GoodEvent(Replay(env, log).defs, log, r))
  {
    hide GoodCreation, GoodEvent, Replay, LogOk, InstanceInv, MachineInv, ThreadInv;
    ScheduleInv(env, states, actions, k);
    ChainSafety(env, states[k].log, r);
  }

  /** When no thread is at work, the engine is what replaying its log would rebuild. */
  lemma QuietIsReplay(env: Env, states: seq<State>, actions: seq<Action>, k: nat)
    requires IsSchedule(env, states, actions) && Orderly(states, actions) && k < |states|
    requires forall t :: !PcOf(states[k], t).Working?
    ensures SameTables(states[k].es, Replay(env, states[k].log))
  {
    hide Replay, LogOk, FromJson, Own, Fold;
    ScheduleInv(env, states, actions, k);
    var s, replayed := states[k], Replay(env, states[k].log);
    forall id ensures Matches(At(s.es.instances, id), At(replayed.instances, id)) {
      assert InstanceInv(s, id);
      ReplayIsFold(env, s.log, id);
    }
    forall key
      ensures (key in s.es.defs <==> key in replayed.defs)
              && (key in replayed.defs ==> s.es.defs[key] == replayed.defs[key])
    {
      assert MachineInv(env, s, key);
    }
    assert s.es.instances.Keys == replayed.instances.Keys by {
      forall id ensures id in s.es.instances.Keys <==> id in replayed.instances.Keys {
        assert Matches(At(s.es.instances, id), At(replayed.instances, id));
      }
    }
    forall id | id in s.es.instances ensures SameInstance(s.es.instances[id], replayed.instances[id]) {
      assert Matches(At(s.es.instances, id), At(replayed.instances, id));
    }
    assert s.es.defs == replayed.defs;
  }

  // ---------------------------------------------------------------------------------------------------------------
  // Where the promise ends
  // ---------------------------------------------------------------------------------------------------------------

  lemma {:induction false} FoldOffset(own: Log)
    requires Fold(own).Some?
    ensures exists k :: 0 <= k < |own| && own[k].offset == Fold(own).value.lastWalOffset
  {
    var n := |own| - 1;
    if Fold(own[..n]).Some? && Fold(own).value.lastWalOffset != own[n].offset {
      FoldOffset(own[..n]);
      var k :| 0 <= k < n && own[..n][k].offset == Fold(own[..n]).value.lastWalOffset;
      assert own[k].offset == Fold(own).value.lastWalOffset;
    }
  }

  lemma {:induction false} OwnIsLogged(log: Log, id: string, k: nat)
    requires k < |Own(log, id)|
    ensures exists j :: 0 <= j < |log| && log[j] == Own(log, id)[k]
  {
    var n := |log| - 1;
    if k < |Own(log[..n], id)| {
      OwnIsLogged(log[..n], id, k);
      var j :| 0 <= j < n && log[..n][j] == Own(log[..n], id)[k];
      assert log[j] == Own(log, id)[k];
    } else {
      assert log[n] == Own(log, id)[k];
    }
  }

  ghost predicate NewOffset(log: Log, offset: nat) {
    forall k :: 0 <= k < |log| ==> log[k].offset != offset
  }

  /**
   A creation that is written and applied leaves its instance what the records say if and only if the log had no
   creation of that instance yet.
   */
  lemma CreationSettles(env: Env, s: State, t: nat, op: Op, rec: LogRecord)
    requires op.Create? && CreatesId(rec.entry, op.id) && NewOffset(s.log, rec.offset)
    ensures Settled(AfterUpdate(env, AfterWrite(s, t, op, rec), t, op, rec), op.id)
       <==> Fold(Own(s.log, op.id)).None?
  {
    hide Own, Fold, FromJson;
    var own := Own(s.log, op.id);
    OwnLast(s.log, rec, op.id);
    FoldLast(own, rec);
    if Fold(own).Some? {
      FoldOffset(own);
      var k :| 0 <= k < |own| && own[k].offset == Fold(own).value.lastWalOffset;
      OwnIsLogged(s.log, op.id, k);
    }
  }

  /** The engine holds a machine as replaying the log would. */
  ghost predicate MachineSettled(env: Env, s: State, key: MachineKey) {
    var replayed := Replay(env, s.log).defs;
    (key in s.es.defs <==> key in replayed) && (key in replayed ==> s.es.defs[key] == replayed[key])
  }

  /**
   A machine that is written and stored is the one that replay rebuilds if and only if the log had none of that name
   and version yet, or the same.
   */
  lemma PutSettles(env: Env, s: State, t: nat, op: Op, rec: LogRecord)
    requires op.Put? && ToWrite(env, s.es, op) == Log(rec.entry)
    ensures FromJson(env.checksum, op.name, op.version, op.json).Ok?
    ensures MachineSettled(env, AfterUpdate(env, AfterWrite(s, t, op, rec), t, op, rec), PutKey(op))
       <==> (PutKey(op) in Replay(env, s.log).defs ==>
               Replay(env, s.log).defs[PutKey(op)] == FromJson(env.checksum, op.name, op.version, op.json).value)
  {
    NullIsNoDefinition(env, op.name, op.version);
    ReplayLast(env, s.log, rec);
    hide Replay, FromJson, LogOk;
  }
}
