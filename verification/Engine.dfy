/**
 The state machine engine as values: what each operation decides before it writes to the log, what it does once the
 log record is written, and how a log is replayed.
 */
module Engine {
  import opened Common
  import opened Json
  import opened Guard
  import opened Definition
  import opened Record
  import opened Entry

  datatype Lifecycle = Active | Deleted

  datatype Instance = Instance(
    id: string, machine: string, version: nat, state: string, ctx: Value, lifecycle: Lifecycle,
    lastEventId: Option<string>, lastWalOffset: nat)

  function KeyOf(i: Instance): MachineKey { MachineKey(i.machine, i.version) }

  datatype MachineKey = MachineKey(name: string, version: nat)
  datatype CacheKey = CacheKey(instanceId: string, key: string)

  datatype ApplyResult = ApplyResult(
    fromState: string, toState: string, ctx: Value, walOffset: nat, sequence: nat, applied: bool)

  datatype EngineState = EngineState(
    defs: map<MachineKey, Machine>, instances: map<string, Instance>, cache: map<CacheKey, ApplyResult>)

  const EMPTY: EngineState := EngineState(map[], map[], map[])

  datatype CoreError =
    | MachineVersionNotFound | MachineVersionExists | InstanceNotFound | InstanceExists
    | InvalidTransition | GuardFailed
    | StateConflict(expectedState: string, actualState: string)
    | WalOffsetConflict(expectedOffset: nat, actualOffset: nat)
    | BadDefinition(definition: DefinitionError)
    | WalFailed(wal: WalError)

  datatype Op =
    | Put(name: string, version: nat, json: Value)
    | Create(id: string, machine: string, version: nat, ctx: Value, key: Option<string>)
    | Apply(id: string, event: string, payload: Value, expectedState: Option<string>, expectedOffset: Option<nat>,
            eventId: Option<string>, key: Option<string>)
    | Delete(id: string, key: Option<string>)

  datatype Response =
    | PutOk(checksum: string, created: bool)
    | CreateOk(instance: Instance, sequence: nat)
    | ApplyOk(result: ApplyResult)
    | DeleteOk(offset: nat)
    | Failed(error: CoreError)

  /** What an operation does before touching the log: answer at once, or write an entry. */
  datatype Decision = Reply(response: Response) | Log(entry: WalEntry)

  function NewInstance(id: string, machine: string, version: nat, state: string, ctx: Value, offset: nat): Instance {
    Instance(id, machine, version, state, ctx, Active, None, offset)
  }

  // ---------------------------------------------------------------------------------------------------------------
  // Operations
  // ---------------------------------------------------------------------------------------------------------------

  function DecidePut(env: Env, es: EngineState, name: string, version: nat, json: Value): Decision {
    match FromJson(env.checksum, name, version, json)
    case Err(e) => Reply(Failed(BadDefinition(e)))
    case Ok(m) =>
      var key := MachineKey(name, version);
      if key !in es.defs then Log(PutMachine(name, version, m.checksum, json))
      else if es.defs[key].checksum == m.checksum then Reply(PutOk(m.checksum, false))
      else Reply(Failed(MachineVersionExists))
  }

  function DecideCreate(es: EngineState, op: Op): Decision
    requires op.Create?
  {
    if op.key.Some? && CacheKey(op.id, op.key.value) in es.cache && op.id in es.instances then
      Reply(CreateOk(es.instances[op.id], es.instances[op.id].lastWalOffset))
    else if op.id in es.instances then Reply(Failed(InstanceExists))
    else if MachineKey(op.machine, op.version) !in es.defs then Reply(Failed(MachineVersionNotFound))
    else
      var m := es.defs[MachineKey(op.machine, op.version)];
      Log(CreateInstance(op.id, op.machine, op.version, m.initial, op.ctx, op.key))
  }

  /** The checks under the instance's write lock, against the instance as the lock holder sees it. */
  function DecideApplyOn(es: EngineState, i: Instance, op: Op): Decision
    requires op.Apply?
  {
    if op.expectedState.Some? && i.state != op.expectedState.value then
      Reply(Failed(StateConflict(op.expectedState.value, i.state)))
    else if op.expectedOffset.Some? && i.lastWalOffset != op.expectedOffset.value then
      Reply(Failed(WalOffsetConflict(op.expectedOffset.value, i.lastWalOffset)))
    else if KeyOf(i) !in es.defs then Reply(Failed(MachineVersionNotFound))
    else match GetTransition(es.defs[KeyOf(i)], i.state, op.event)
      case None => Reply(Failed(InvalidTransition))
      case Some(target) =>
        if !Holds(target.guard, i.ctx) then Reply(Failed(GuardFailed))
        else Log(ApplyEvent(op.id, op.event, i.state, target.to, op.payload, Merge(i.ctx, op.payload), op.eventId, op.key))
  }

  function DecideApply(es: EngineState, op: Op): Decision
    requires op.Apply?
  {
    if op.key.Some? && CacheKey(op.id, op.key.value) in es.cache then
      Reply(ApplyOk(es.cache[CacheKey(op.id, op.key.value)]))
    else if op.id !in es.instances then Reply(Failed(InstanceNotFound))
    else DecideApplyOn(es, es.instances[op.id], op)
  }

  function DecideDelete(es: EngineState, op: Op): Decision
    requires op.Delete?
  {
    if op.id !in es.instances then Reply(Failed(InstanceNotFound))
    else if es.instances[op.id].lifecycle.Deleted? then Reply(DeleteOk(es.instances[op.id].lastWalOffset))
    else Log(DeleteInstance(op.id, op.key))
  }

  function Decide(env: Env, es: EngineState, op: Op): Decision {
    match op
    case Put(name, version, json) => DecidePut(env, es, name, version, json)
    case Create(_, _, _, _, _) => DecideCreate(es, op)
    case Apply(_, _, _, _, _, _, _) => DecideApply(es, op)
    case Delete(_, _) => DecideDelete(es, op)
  }

  /** The instance after a record of its own: `apply_transition` and `soft_delete`. */
  function Updated(i: Instance, rec: LogRecord): Instance {
    match rec.entry
    case ApplyEvent(_, _, _, to, _, ctx, eventId, _) =>
      i.(state := to, ctx := ctx, lastEventId := eventId, lastWalOffset := rec.offset)
    case DeleteInstance(_, _) => i.(lifecycle := Deleted, lastWalOffset := rec.offset)
    case _ => i
  }

  function Created(rec: LogRecord): Instance
    requires rec.entry.CreateInstance?
  {
    var e := rec.entry;
    NewInstance(e.instanceId, e.machine, e.version, e.initialState, e.initialCtx, rec.offset)
  }

  function ResultOf(rec: LogRecord): ApplyResult
    requires rec.entry.ApplyEvent?
  {
    ApplyResult(rec.entry.fromState, rec.entry.toState, rec.entry.ctx, rec.offset, rec.sequence, true)
  }

  /** The tables after the operation's record was written. */
  function Commit(env: Env, es: EngineState, rec: LogRecord): EngineState {
    match rec.entry
    case PutMachine(name, version, _, json) =>
      (match FromJson(env.checksum, name, version, json)
       case Ok(m) => es.(defs := es.defs[MachineKey(name, version) := m])
       case Err(_) => es)
    case CreateInstance(id, _, _, _, _, _) => es.(instances := es.instances[id := Created(rec)])
    case ApplyEvent(id, _, _, _, _, _, _, key) =>
      if id !in es.instances then es
      else
        es.(instances := es.instances[id := Updated(es.instances[id], rec)],
            cache := if key.Some? then es.cache[CacheKey(id, key.value) := ResultOf(rec)] else es.cache)
    case DeleteInstance(id, _) =>
      if id !in es.instances then es else es.(instances := es.instances[id := Updated(es.instances[id], rec)])
    case _ => es
  }

  function Answer(rec: LogRecord): Response {
    match rec.entry
    case PutMachine(_, _, hash, _) => PutOk(hash, true)
    case CreateInstance(_, _, _, _, _, _) => CreateOk(Created(rec), rec.sequence)
    case ApplyEvent(_, _, _, _, _, _, _, _) => ApplyOk(ResultOf(rec))
    case _ => DeleteOk(rec.offset)
  }

  // ---------------------------------------------------------------------------------------------------------------
  // Replay
  // ---------------------------------------------------------------------------------------------------------------

  /** The instance after replaying a record of its own: an absent event id leaves the old one standing. */
  function Replayed(i: Instance, rec: LogRecord): Instance {
    match rec.entry
    case ApplyEvent(_, _, _, to, _, ctx, eventId, _) =>
      i.(state := to, ctx := ctx, lastWalOffset := rec.offset,
         lastEventId := if eventId.Some? then eventId else i.lastEventId)
    case DeleteInstance(_, _) => i.(lifecycle := Deleted, lastWalOffset := rec.offset)
    case _ => i
  }

  function ReplayEntry(env: Env, es: EngineState, rec: LogRecord): EngineState {
    match rec.entry
    case PutMachine(name, version, _, json) =>
      if json.Null? || MachineKey(name, version) in es.defs then es
      else
        (match FromJson(env.checksum, name, version, json)
         case Ok(m) => es.(defs := es.defs[MachineKey(name, version) := m])
         case Err(_) => es)
    case CreateInstance(id, _, _, _, _, _) =>
      if id in es.instances then es else es.(instances := es.instances[id := Created(rec)])
    case ApplyEvent(id, _, _, _, _, _, _, _) =>
      if id !in es.instances then es else es.(instances := es.instances[id := Replayed(es.instances[id], rec)])
    case DeleteInstance(id, _) =>
      if id !in es.instances then es else es.(instances := es.instances[id := Replayed(es.instances[id], rec)])
    case _ => es
  }

  /** Replays a log from an empty engine. */
  function Replay(env: Env, log: seq<LogRecord>): EngineState {
    if log == [] then EMPTY else ReplayEntry(env, Replay(env, log[..|log| - 1]), log[|log| - 1])
  }

  // ---------------------------------------------------------------------------------------------------------------
  // Live engine against replay
  // ---------------------------------------------------------------------------------------------------------------

  /** Equal in everything but the last event id. */
  ghost predicate SameInstance(a: Instance, b: Instance) {
    a == b.(lastEventId := a.lastEventId)
  }

  ghost predicate SameInstances(a: map<string, Instance>, b: map<string, Instance>) {
    a.Keys == b.Keys && forall id :: id in a ==> SameInstance(a[id], b[id])
  }

  /** The same definitions and, up to last event ids, the same instances. */
  ghost predicate SameTables(a: EngineState, b: EngineState) {
    a.defs == b.defs && SameInstances(a.instances, b.instances)
  }

  /** What the log record of a machine's transition must satisfy, given the instance it moves. */
  ghost predicate AdmissibleApply(defs: map<MachineKey, Machine>, i: Instance, e: WalEntry)
    requires e.ApplyEvent?
  {
    && KeyOf(i) in defs && e.fromState == i.state
    && e.ctx == Merge(i.ctx, e.payload)
    && var t := GetTransition(defs[KeyOf(i)], e.fromState, e.event);
       t.Some? && t.value.to == e.toState && Holds(t.value.guard, i.ctx)
  }

  /** An entry that may be written in this state. */
  ghost predicate Admissible(env: Env, es: EngineState, e: WalEntry) {
    match e
    case PutMachine(name, version, _, json) =>
      MachineKey(name, version) !in es.defs && FromJson(env.checksum, name, version, json).Ok?
    case CreateInstance(id, machine, version, initial, _, _) =>
      && id !in es.instances && MachineKey(machine, version) in es.defs
      && initial == es.defs[MachineKey(machine, version)].initial
    case ApplyEvent(id, _, _, _, _, _, _, _) => id in es.instances && AdmissibleApply(es.defs, es.instances[id], e)
    case DeleteInstance(id, _) => id in es.instances && es.instances[id].lifecycle.Active?
    case _ => false
  }

  /** Operations only ever write admissible entries. */
  lemma DecideAdmissible(env: Env, es: EngineState, op: Op)
    requires Decide(env, es, op).Log?
    ensures Admissible(env, es, Decide(env, es, op).entry)
  {
    hide FromJson, Holds, GetTransition;
  }

  /** Admissibility does not depend on what replay forgets. */
  lemma AdmissibleSame(env: Env, a: EngineState, b: EngineState, e: WalEntry)
    requires SameTables(a, b)
    ensures Admissible(env, a, e) == Admissible(env, b, e)
  {
    hide FromJson, Holds, GetTransition;
  }

  lemma NullIsNoDefinition(env: Env, name: string, version: nat)
    ensures FromJson(env.checksum, name, version, Null).Err?
  {
  }

  /** One record: committing it live and replaying it give the same tables. */
  lemma CommitReplays(env: Env, es: EngineState, rs: EngineState, rec: LogRecord)
    requires SameTables(es, rs) && Admissible(env, es, rec.entry)
    ensures SameTables(Commit(env, es, rec), ReplayEntry(env, rs, rec))
  {
    hide FromJson, Holds, GetTransition;
    if rec.entry.PutMachine? {
      NullIsNoDefinition(env, rec.entry.machine, rec.entry.version);
    }
  }

  /** Each record was admissible where it was written. */
  ghost predicate LogOk(env: Env, log: seq<LogRecord>) {
    log == [] ||
    (LogOk(env, log[..|log| - 1]) && Admissible(env, Replay(env, log[..|log| - 1]), log[|log| - 1].entry))
  }

  /** The engine together with the log it has written. */
  datatype Db = Db(es: EngineState, log: seq<LogRecord>)

  ghost predicate DbInv(env: Env, db: Db) {
    SameTables(db.es, Replay(env, db.log)) && LogOk(env, db.log)
  }

  lemma ReplayLast(env: Env, log: seq<LogRecord>, rec: LogRecord)
    ensures Replay(env, log + [rec]) == ReplayEntry(env, Replay(env, log), rec)
    ensures LogOk(env, log + [rec]) <==> LogOk(env, log) && Admissible(env, Replay(env, log), rec.entry)
  {
    hide ReplayEntry, Admissible;
    assert (log + [rec])[..|log|] == log;
  }

  /** The outcome of the WAL append an operation may ask for: sequence and offset, or an error. */
  type AppendResult = Result<(nat, nat), WalError>

  /** One call, with what the WAL would answer. */
  datatype Call = Call(op: Op, wal: AppendResult)

  function Exec(env: Env, db: Db, call: Call): (Db, Response) {
    match Decide(env, db.es, call.op)
    case Reply(r) => (db, r)
    case Log(entry) =>
      match call.wal
      case Err(e) => (db, Failed(WalFailed(e)))
      case Ok((sequence, offset)) =>
        var rec := LogRecord(sequence, offset, entry);
        (Db(Commit(env, db.es, rec), db.log + [rec]), Answer(rec))
  }

  function Run(env: Env, db: Db, calls: seq<Call>): Db {
    if calls == [] then db else Exec(env, Run(env, db, calls[..|calls| - 1]), calls[|calls| - 1]).0
  }

  lemma ExecKeepsInv(env: Env, db: Db, call: Call)
    requires DbInv(env, db)
    ensures DbInv(env, Exec(env, db, call).0)
  {
    hide SameTables, Replay, LogOk, Decide, Commit, ReplayEntry, Admissible;
    var d := Decide(env, db.es, call.op);
    if d.Log? && call.wal.Ok? {
      DecideAdmissible(env, db.es, call.op);
      var rec := LogRecord(call.wal.value.0, call.wal.value.1, d.entry);
      CommitReplays(env, db.es, Replay(env, db.log), rec);
      ReplayLast(env, db.log, rec);
      AdmissibleSame(env, db.es, Replay(env, db.log), d.entry);
    }
  }

  /**
   Replay refines the live engine: after any run, rejected calls, failed appends and cache hits included, replaying
   the log rebuilds the definitions and, for every instance, machine, version, state, context, lifecycle and offset.
   */
  lemma {:induction false} ReplayRebuilds(env: Env, db: Db, calls: seq<Call>)
    requires DbInv(env, db)
    ensures DbInv(env, Run(env, db, calls))
  {
    hide DbInv, Exec;
    if calls == [] {
    } else {
      ReplayRebuilds(env, db, calls[..|calls| - 1]);
      ExecKeepsInv(env, Run(env, db, calls[..|calls| - 1]), calls[|calls| - 1]);
    }
  }

  lemma EmptyDb(env: Env)
    ensures DbInv(env, Db(EMPTY, []))
  {
  }

  /** A restarted engine, with whatever its predecessor's cache knew gone, is a good engine on the same log. */
  lemma Restarted(env: Env, log: seq<LogRecord>)
    requires LogOk(env, log)
    ensures DbInv(env, Db(Replay(env, log), log))
  {
  }
}
