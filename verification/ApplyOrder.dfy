/**
 Every interleaving, orderly or not: records reach the log in one order and the tables in another. When the engine
 comes to rest, this is what decides whether replaying the log rebuilds the tables.
 */
module ApplyOrder {
  import opened Common
  import opened Json
  import opened Guard
  import opened Definition
  import opened Entry
  import opened Engine
  import opened EngineSafety
  import opened Threads

  /** The records that the first `k` steps put into the tables, in that order. */
  ghost function Order(env: Env, states: seq<State>, actions: seq<Action>, k: nat): Log
    requires IsSchedule(env, states, actions) && k <= |actions|
  {
    if k == 0 then []
    else
      var before := Order(env, states, actions, k - 1);
      if actions[k - 1].Update? then before + [PcOf(states[k - 1], actions[k - 1].t).stage.rec] else before
  }

  /** The write-ahead log gives every record an offset of its own. */
  ghost predicate FreshOffsets(states: seq<State>, actions: seq<Action>)
    requires |states| == |actions| + 1
  {
    forall i :: 0 <= i < |actions| && actions[i].Write? ==> NewOffset(states[i].log, actions[i].offset)
  }

  ghost predicate AtRest(s: State) { forall t :: !PcOf(s, t).Working? }

  // ---------------------------------------------------------------------------------------------------------------
  // What a table entry is, given the records in the order in which they were applied
  // ---------------------------------------------------------------------------------------------------------------

  /** Applying a creation replaces whatever instance is there; replaying one does not. */
  function LiveFold(own: Log): Option<Instance> {
    if own == [] then None
    else
      var rec := own[|own| - 1];
      if rec.entry.CreateInstance? then Some(Created(rec))
      else
        match LiveFold(own[..|own| - 1])
        case None => None
        case Some(i) => Some(Updated(i, rec))
  }

  /** The records of a machine. */
  function Puts(log: Log, key: MachineKey): Log {
    if log == [] then []
    else
      var before, rec := Puts(log[..|log| - 1], key), log[|log| - 1];
      if IsPut(rec, key) then before + [rec] else before
  }

  predicate IsPut(rec: LogRecord, key: MachineKey) {
    rec.entry.PutMachine? && MachineKey(rec.entry.machine, rec.entry.version) == key
  }

  function MachineOf(env: Env, rec: LogRecord): Result<Machine, DefinitionError>
    requires rec.entry.PutMachine?
  {
    FromJson(env.checksum, rec.entry.machine, rec.entry.version, rec.entry.definition)
  }

  /** The events and deletions among an instance's records. */
  function Events(own: Log): Log {
    if own == [] then []
    else
      var before, rec := Events(own[..|own| - 1]), own[|own| - 1];
      if rec.entry.CreateInstance? then before else before + [rec]
  }

  lemma OwnIn(log: Log, id: string, rec: LogRecord)
    ensures rec in Own(log, id) <==> rec in log && About(rec.entry, id)
  {
    if log == [] {
    } else {
      OwnIn(log[..|log| - 1], id, rec);
      assert log == log[..|log| - 1] + [log[|log| - 1]];
    }
  }

  lemma PutsIn(log: Log, key: MachineKey, rec: LogRecord)
    ensures rec in Puts(log, key) <==> rec in log && IsPut(rec, key)
  {
    if log == [] {
    } else {
      PutsIn(log[..|log| - 1], key, rec);
      assert log == log[..|log| - 1] + [log[|log| - 1]];
    }
  }

  lemma PutsLast(log: Log, rec: LogRecord, key: MachineKey)
    ensures Puts(log + [rec], key) == if IsPut(rec, key) then Puts(log, key) + [rec] else Puts(log, key)
  {
    assert (log + [rec])[..|log|] == log;
  }

  lemma EventsLast(own: Log, rec: LogRecord)
    ensures Events(own + [rec]) == if rec.entry.CreateInstance? then Events(own) else Events(own) + [rec]
  {
    assert (own + [rec])[..|own|] == own;
  }

  lemma LiveFoldLast(own: Log, rec: LogRecord)
    ensures LiveFold(own + [rec])
         == if rec.entry.CreateInstance? then Some(Created(rec))
            else match LiveFold(own)
                 case None => None
                 case Some(i) => Some(Updated(i, rec))
  {
    assert (own + [rec])[..|own|] == own;
  }

  // ---------------------------------------------------------------------------------------------------------------
  // Invariant of every schedule
  // ---------------------------------------------------------------------------------------------------------------

  ghost predicate Parses(env: Env, rec: LogRecord) { rec.entry.PutMachine? ==> MachineOf(env, rec).Ok? }

  predicate Locks(op: Op) { op.Apply? || op.Delete? }

  /** A thread at an event or a deletion has the instance's lock; what a thread has written is its operation's. */
  ghost predicate ThreadOk(env: Env, s: State, t: nat) {
    var pc := PcOf(s, t);
    pc.Working? ==>
      && (Locks(pc.op) ==> pc.op.id in s.held && s.held[pc.op.id] == t && pc.op.id in s.es.instances)
      && (pc.stage.Written? ==> RecordOfOp(pc.op, pc.stage.rec) && pc.stage.rec in s.log && Parses(env, pc.stage.rec))
  }

  /** Only threads at work on an instance hold it. */
  ghost predicate HeldOk(s: State) {
    forall id :: id in s.held ==>
      var pc := PcOf(s, s.held[id]);
      pc.Working? && !pc.op.Put? && pc.op.id == id && !(pc.op.Create? && pc.stage.Applied?)
  }

  /** The event or deletion that is written and not yet applied. */
  function Coming(s: State, id: string): Log {
    if Locked(s, id) && PcOf(s, s.held[id]).stage.Written? then [PcOf(s, s.held[id]).stage.rec] else []
  }

  /** The instance follows its records as they were applied; events are applied as they were logged. */
  ghost predicate InstanceOk(s: State, order: Log, id: string) {
    var own, done := Own(s.log, id), Own(order, id);
    && At(s.es.instances, id) == LiveFold(done)
    && Events(own) == Events(done) + Coming(s, id)
    && (own != [] ==> own[0].entry.CreateInstance?)
  }

  /** The machine is the one that was stored last. */
  ghost predicate MachineOk(env: Env, s: State, order: Log, key: MachineKey) {
    var done := Puts(order, key);
    && (key in s.es.defs <==> done != [])
    && (done != [] ==> done[|done| - 1].entry.PutMachine?
                       && MachineOf(env, done[|done| - 1]) == Ok(s.es.defs[key]))
  }

  ghost predicate InHand(s: State, rec: LogRecord) { exists t, op :: PcOf(s, t) == Working(op, Written(rec)) }

  /** Every record of the log is applied or about to be. */
  ghost predicate LogInv(env: Env, s: State, order: Log) {
    && (forall rec :: rec in s.log ==> Parses(env, rec) && (rec in order || InHand(s, rec)))
    && (forall rec :: rec in order ==> rec in s.log)
    && (forall i, j :: 0 <= i < j < |s.log| ==> s.log[i].offset != s.log[j].offset)
  }

  ghost predicate OrderInv(env: Env, s: State, order: Log) {
    && LogInv(env, s, order) && HeldOk(s)
    && (forall t :: ThreadOk(env, s, t))
    && (forall id :: InstanceOk(s, order, id))
    && (forall key :: MachineOk(env, s, order, key))
  }

  // ---------------------------------------------------------------------------------------------------------------
  // Steps that neither write nor apply
  // ---------------------------------------------------------------------------------------------------------------

  predicate Still(a: Action) { a.Check? || a.Enter? || a.Leave? || a.Exit? }

  /** Such a step moves one thread, which has nothing in hand before or after it, and leaves log and tables. */
  lemma StillShape(env: Env, s: State, a: Action)
    requires Still(a) && Enabled(env, s, a)
    ensures var s' := Next(env, s, a);
            && s'.log == s.log && s'.es.instances == s.es.instances && s'.es.defs == s.es.defs
            && (forall u :: u != a.t ==> PcOf(s', u) == PcOf(s, u))
            && !(PcOf(s, a.t).Working? && PcOf(s, a.t).stage.Written?)
            && !(PcOf(s', a.t).Working? && PcOf(s', a.t).stage.Written?)
  {
    hide ToWrite;
  }

  lemma StillThread(env: Env, s: State, a: Action, u: nat)
    requires Still(a) && Enabled(env, s, a) && ThreadOk(env, s, u) && ThreadOk(env, s, a.t)
    ensures ThreadOk(env, Next(env, s, a), u)
  {
    hide ToWrite, Parses, RecordOfOp;
    StillShape(env, s, a);
  }

  lemma EnterHolds(s: State, t: nat, op: Op)
    requires HeldOk(s) && !PcOf(s, t).Working?
    ensures HeldOk(AfterEnter(s, t, op))
  {
    assert forall u :: u != t ==> PcOf(AfterEnter(s, t, op), u) == PcOf(s, u);
  }

  lemma ReleaseHolds(s: State, es: EngineState, t: nat, op: Op)
    requires HeldOk(s) && PcOf(s, t).Working? && PcOf(s, t).op == op
    ensures HeldOk(Release(s.(es := es), t, op))
  {
    assert forall u :: u != t ==> PcOf(Release(s.(es := es), t, op), u) == PcOf(s, u);
  }

  lemma StillHeld(env: Env, s: State, a: Action)
    requires Still(a) && Enabled(env, s, a) && HeldOk(s)
    ensures HeldOk(Next(env, s, a))
  {
    hide ToWrite, Locked, Release, Claim, FillCache;
    var pc := PcOf(s, a.t);
    match a
    case Check(_, op) => assert forall u :: u != a.t ==> PcOf(s.(pcs := s.pcs[a.t := Waiting(op)]), u) == PcOf(s, u);
    case Enter(_) => EnterHolds(s, a.t, pc.op);
    case Leave(_) =>
      if pc.Waiting? {
        assert forall u :: u != a.t ==> PcOf(s.(pcs := s.pcs[a.t := Idle]), u) == PcOf(s, u);
      } else {
        ReleaseHolds(s, s.es, a.t, pc.op);
      }
    case Exit(_) => ReleaseHolds(s, FillCache(s.es, pc.stage.rec), a.t, pc.op);
  }

  lemma StillComing(env: Env, s: State, a: Action, id: string)
    requires Still(a) && Enabled(env, s, a) && HeldOk(s) && forall u :: ThreadOk(env, s, u)
    ensures Coming(Next(env, s, a), id) == Coming(s, id)
  {
    hide ToWrite, Parses, RecordOfOp;
    StillShape(env, s, a);
    var s' := Next(env, s, a);
    assert Locked(s, id) ==> ThreadOk(env, s, s.held[id]);
  }

  lemma StillKeeps(env: Env, s: State, a: Action, order: Log)
    requires Still(a) && Enabled(env, s, a) && OrderInv(env, s, order)
    ensures OrderInv(env, Next(env, s, a), order)
  {
    var s' := Next(env, s, a);
    StillShape(env, s, a);
    hide ToWrite, Parses, Enabled, Next, Own, Events, LiveFold, Puts, MachineOf, ThreadOk, Coming, HeldOk;
    StillHeld(env, s, a);
    forall u ensures ThreadOk(env, s', u) { StillThread(env, s, a, u); }
    forall id ensures InstanceOk(s', order, id) {
      assert InstanceOk(s, order, id);
      StillComing(env, s, a, id);
    }
    forall key ensures MachineOk(env, s', order, key) { assert MachineOk(env, s, order, key); }
    forall rec | rec in s.log ensures rec in order || InHand(s', rec) {
      if rec !in order {
        var t, op :| PcOf(s, t) == Working(op, Written(rec));
        assert PcOf(s', t) == Working(op, Written(rec));
      }
    }
  }

  // ---------------------------------------------------------------------------------------------------------------
  // Writing
  // ---------------------------------------------------------------------------------------------------------------

  ghost predicate Writes(env: Env, s: State, t: nat, op: Op, rec: LogRecord) {
    && PcOf(s, t) == Working(op, Entered) && RecordOfOp(op, rec) && Parses(env, rec) && NewOffset(s.log, rec.offset)
  }

  lemma WriteShape(env: Env, s: State, a: Action) returns (op: Op, rec: LogRecord)
    requires a.Write? && Enabled(env, s, a) && NewOffset(s.log, a.offset)
    ensures Writes(env, s, a.t, op, rec) && Next(env, s, a) == AfterWrite(s, a.t, op, rec)
  {
    op := PcOf(s, a.t).op;
    rec := LogRecord(a.sequence, a.offset, ToWrite(env, s.es, op).entry);
    WrittenIsOfOp(env, s.es, op, rec);
    hide FromJson, DecideApplyOn, DecideDelete;
  }

  lemma WriteInstanceOk(env: Env, s: State, t: nat, op: Op, rec: LogRecord, order: Log, id: string)
    requires Writes(env, s, t, op, rec) && OrderInv(env, s, order)
    ensures InstanceOk(AfterWrite(s, t, op, rec), order, id)
  {
    hide Own, Events, LiveFold, Puts, MachineOf, Parses, MachineOk;
    var s' := AfterWrite(s, t, op, rec);
    assert ThreadOk(env, s, t) && InstanceOk(s, order, id);
    OwnLast(s.log, rec, id);
    EventsLast(Own(s.log, id), rec);
    if About(rec.entry, id) {
      FirstIsCreation(env, s, t, op, rec, order, id);
    }
    if Locks(op) && op.id == id {
      assert Coming(s, id) == [] && Coming(s', id) == [rec];
    } else {
      assert Coming(s', id) == Coming(s, id);
    }
  }

  /** An instance's first record creates it: an event needs the instance to be in the table. */
  lemma FirstIsCreation(env: Env, s: State, t: nat, op: Op, rec: LogRecord, order: Log, id: string)
    requires Writes(env, s, t, op, rec) && OrderInv(env, s, order) && About(rec.entry, id)
    ensures rec.entry.CreateInstance? || Own(s.log, id) != []
  {
    hide Parses, MachineOk, Own, Events, Coming;
    assert ThreadOk(env, s, t) && InstanceOk(s, order, id);
    if Locks(op) {
      var done := Own(order, id);
      assert done != [];
      OwnIn(order, id, done[0]);
      OwnIn(s.log, id, done[0]);
    }
  }

  lemma WriteLogInv(env: Env, s: State, t: nat, op: Op, rec: LogRecord, order: Log)
    requires Writes(env, s, t, op, rec) && LogInv(env, s, order)
    ensures LogInv(env, AfterWrite(s, t, op, rec), order)
  {
    hide Parses, RecordOfOp;
    var s' := AfterWrite(s, t, op, rec);
    forall r | r in s'.log ensures Parses(env, r) && (r in order || InHand(s', r)) {
      if r == rec {
        assert PcOf(s', t) == Working(op, Written(rec));
      } else if r !in order {
        var u, op' :| PcOf(s, u) == Working(op', Written(r));
        assert PcOf(s', u) == Working(op', Written(r));
      }
    }
  }

  lemma WriteKeepsOrder(env: Env, s: State, a: Action, order: Log)
    requires a.Write? && Enabled(env, s, a) && NewOffset(s.log, a.offset) && OrderInv(env, s, order)
    ensures OrderInv(env, Next(env, s, a), order)
  {
    var op, rec := WriteShape(env, s, a);
    var t, s' := a.t, AfterWrite(s, a.t, op, rec);
    hide ToWrite, Parses, Enabled, Next, Puts, MachineOf, InstanceOk, RecordOfOp, LogInv;
    WriteLogInv(env, s, t, op, rec, order);
    assert forall u :: u != t ==> PcOf(s', u) == PcOf(s, u);
    forall u ensures ThreadOk(env, s', u) { assert ThreadOk(env, s, u) && ThreadOk(env, s, t); }
    forall id ensures InstanceOk(s', order, id) { WriteInstanceOk(env, s, t, op, rec, order, id); }
    forall key ensures MachineOk(env, s', order, key) { assert MachineOk(env, s, order, key); }
  }

  // ---------------------------------------------------------------------------------------------------------------
  // Applying
  // ---------------------------------------------------------------------------------------------------------------

  ghost predicate Applies(env: Env, s: State, t: nat, op: Op, rec: LogRecord) {
    && PcOf(s, t) == Working(op, Written(rec)) && ThreadOk(env, s, t)
    && (op.Create? ==> !Locked(s, op.id))
  }

  lemma UpdateInstanceOk(env: Env, s: State, t: nat, op: Op, rec: LogRecord, order: Log, id: string)
    requires Applies(env, s, t, op, rec) && HeldOk(s) && InstanceOk(s, order, id)
    ensures InstanceOk(AfterUpdate(env, s, t, op, rec), order + [rec], id)
  {
    hide Own, Events, LiveFold, FromJson, Parses;
    var s', done := AfterUpdate(env, s, t, op, rec), Own(order, id);
    OwnLast(order, rec, id);
    EventsLast(done, rec);
    LiveFoldLast(done, rec);
    if About(rec.entry, id) {
      assert op.id == id;
      assert Coming(s', id) == [];
      assert Locks(op) ==> Coming(s, id) == [rec];
      assert op.Create? ==> Coming(s, id) == [];
      assert Events(Own(s'.log, id)) == Events(done + [rec]) + Coming(s', id);
    } else {
      assert Coming(s', id) == Coming(s, id);
    }
  }

  lemma UpdateMachineOk(env: Env, s: State, t: nat, op: Op, rec: LogRecord, order: Log, key: MachineKey)
    requires Applies(env, s, t, op, rec) && MachineOk(env, s, order, key)
    ensures MachineOk(env, AfterUpdate(env, s, t, op, rec), order + [rec], key)
  {
    hide Puts, FromJson, Created, Updated;
    PutsLast(order, rec, key);
  }

  lemma UpdateThreadOk(env: Env, s: State, t: nat, op: Op, rec: LogRecord, u: nat)
    requires Applies(env, s, t, op, rec) && ThreadOk(env, s, u)
    ensures ThreadOk(env, AfterUpdate(env, s, t, op, rec), u)
  {
    hide FromJson, Created, Updated, Parses, RecordOfOp;
    assert u != t ==> PcOf(AfterUpdate(env, s, t, op, rec), u) == PcOf(s, u);
  }

  lemma UpdateHeldOk(env: Env, s: State, t: nat, op: Op, rec: LogRecord)
    requires Applies(env, s, t, op, rec) && HeldOk(s)
    ensures HeldOk(AfterUpdate(env, s, t, op, rec))
  {
    hide Commit;
    var s' := AfterUpdate(env, s, t, op, rec);
    assert forall u :: u != t ==> PcOf(s', u) == PcOf(s, u);
  }

  lemma UpdateKeepsOrder(env: Env, s: State, a: Action, order: Log)
    requires a.Update? && Enabled(env, s, a) && OrderInv(env, s, order)
    ensures OrderInv(env, Next(env, s, a), order + [PcOf(s, a.t).stage.rec])
  {
    var t, op, rec := a.t, PcOf(s, a.t).op, PcOf(s, a.t).stage.rec;
    var s' := AfterUpdate(env, s, t, op, rec);
    assert Next(env, s, a) == s';
    assert s'.log == s.log && forall u :: u != t ==> PcOf(s', u) == PcOf(s, u);
    hide ToWrite, Parses, Enabled, Next, Own, Events, LiveFold, Puts, MachineOf, InstanceOk, MachineOk, AfterUpdate;
    assert ThreadOk(env, s, t);
    UpdateHeldOk(env, s, t, op, rec);
    forall u ensures ThreadOk(env, s', u) { UpdateThreadOk(env, s, t, op, rec, u); }
    forall id ensures InstanceOk(s', order + [rec], id) { UpdateInstanceOk(env, s, t, op, rec, order, id); }
    forall key ensures MachineOk(env, s', order + [rec], key) { UpdateMachineOk(env, s, t, op, rec, order, key); }
    forall r | r in s.log ensures r in order + [rec] || InHand(s', r) {
      if r !in order + [rec] {
        var u, op' :| PcOf(s, u) == Working(op', Written(r));
        assert PcOf(s', u) == Working(op', Written(r));
      }
    }
  }

  /** In every state of every interleaving, the tables are what the records say in the order of their application. */
  lemma {:induction false} TablesFollowTheOrder(env: Env, states: seq<State>, actions: seq<Action>, k: nat)
    requires IsSchedule(env, states, actions) && FreshOffsets(states, actions) && k <= |actions|
    ensures OrderInv(env, states[k], Order(env, states, actions, k))
    decreases k
  {
    hide OrderInv, Enabled, Next, NewOffset;
    if k == 0 {
      StartOrder(env);
    } else {
      TablesFollowTheOrder(env, states, actions, k - 1);
      var s, a, order := states[k - 1], actions[k - 1], Order(env, states, actions, k - 1);
      if a.Write? {
        WriteKeepsOrder(env, s, a, order);
      } else if a.Update? {
        UpdateKeepsOrder(env, s, a, order);
      } else {
        StillKeeps(env, s, a, order);
      }
    }
  }

  lemma StartOrder(env: Env)
    ensures OrderInv(env, START, [])
  {
    hide FromJson;
  }

  // ---------------------------------------------------------------------------------------------------------------
  // When the two orders tell the same story
  // ---------------------------------------------------------------------------------------------------------------

  /** Where the last creation stands; the length of the log if there is none. */
  function LastCreation(own: Log): (c: nat)
    ensures c <= |own| && (c < |own| ==> own[c].entry.CreateInstance?)
    ensures forall k :: 0 <= k < |own| && own[k].entry.CreateInstance? ==> k <= c < |own|
  {
    if own == [] then 0
    else if own[|own| - 1].entry.CreateInstance? then |own| - 1
    else
      var c := LastCreation(own[..|own| - 1]);
      assert forall k :: 0 <= k < |own| - 1 ==> own[k] == own[..|own| - 1][k];
      if c == |own| - 1 then |own| else c
  }

  predicate HasDeletion(own: Log) { exists k :: 0 <= k < |own| && own[k].entry.DeleteInstance? }

  predicate HasMove(own: Log) { exists k :: 0 <= k < |own| && own[k].entry.ApplyEvent? }

  /** State and context: those of the last event or, without one, of the creation. */
  function Look(creation: LogRecord, own: Log): (string, Value)
    requires creation.entry.CreateInstance?
  {
    if own == [] then (creation.entry.initialState, creation.entry.initialCtx)
    else
      var e := own[|own| - 1].entry;
      if e.ApplyEvent? then (e.toState, e.ctx) else Look(creation, own[..|own| - 1])
  }

  predicate SameMachine(a: LogRecord, b: LogRecord)
    requires a.entry.CreateInstance? && b.entry.CreateInstance?
  {
    a.entry.machine == b.entry.machine && a.entry.version == b.entry.version
  }

  /**
   Of an instance's records as they stand in the log (`own`) and as they were applied (`done`). Without events, the
   first creation of the log was the last one applied. With events, one of them was applied behind the last creation;
   that creation is of the machine of the log's first one; no deletion came before it; and state and context were set
   behind it, or it has the state and context that the log's events lead to.
   */
  predicate Agree(own: Log, done: Log)
    requires own != [] && own[0].entry.CreateInstance?
  {
    var c := LastCreation(done);
    && c < |done|
    && var since := done[c + 1..];
       if Events(own) == [] then done[c] == own[0]
       else
         && since != [] && SameMachine(done[c], own[0]) && (HasDeletion(own) ==> HasDeletion(since))
         && (HasMove(since) || Look(done[c], []) == Look(own[0], own))
  }

  lemma DeletionLast(own: Log, rec: LogRecord)
    ensures HasDeletion(own + [rec]) <==> HasDeletion(own) || rec.entry.DeleteInstance?
  {
    var all := own + [rec];
    if HasDeletion(own) {
      var k :| 0 <= k < |own| && own[k].entry.DeleteInstance?;
      assert all[k] == own[k];
    }
    assert all[|own|] == rec;
  }

  ghost predicate AllAbout(log: Log, id: string) { forall k :: 0 <= k < |log| ==> About(log[k].entry, id) }

  /** The instance that a creation and the events behind it lead to. */
  ghost predicate Shows(i: Instance, id: string, creation: LogRecord, events: Log, offset: nat)
    requires creation.entry.CreateInstance?
  {
    && i.id == id && i.machine == creation.entry.machine && i.version == creation.entry.version
    && (i.state, i.ctx) == Look(creation, events) && (i.lifecycle.Deleted? <==> HasDeletion(events))
    && i.lastWalOffset == offset
  }

  lemma ShowsCreated(rec: LogRecord, id: string)
    requires CreatesId(rec.entry, id)
    ensures Shows(Created(rec), id, rec, [], rec.offset)
  {
  }

  lemma ShowsNext(i: Instance, id: string, creation: LogRecord, events: Log, offset: nat, rec: LogRecord)
    requires creation.entry.CreateInstance? && Shows(i, id, creation, events, offset)
    requires rec.entry.ApplyEvent? || rec.entry.DeleteInstance?
    ensures Shows(Updated(i, rec), id, creation, events + [rec], rec.offset)
    ensures Shows(Replayed(i, rec), id, creation, events + [rec], rec.offset)
  {
    hide HasDeletion;
    DeletionLast(events, rec);
    assert (events + [rec])[..|events|] == events;
  }

  /** What replay makes of an instance's records. */
  lemma {:induction false} ReplayedInstance(own: Log, id: string)
    requires own != [] && own[0].entry.CreateInstance? && AllAbout(own, id)
    ensures var events := Events(own);
            && Fold(own).Some?
            && Shows(Fold(own).value, id, own[0], events,
                     if events == [] then own[0].offset else events[|events| - 1].offset)
  {
    var n := |own| - 1;
    if n == 0 {
      ShowsCreated(own[0], id);
      assert own[..0] == [];
    } else {
      hide Shows, Created;
      var before, rec := own[..n], own[n];
      ReplayedInstance(before, id);
      var i, events := Fold(before).value, Events(before);
      if !rec.entry.CreateInstance? {
        ShowsNext(i, id, own[0], events, if events == [] then own[0].offset else events[|events| - 1].offset, rec);
      }
    }
  }

  /** What applying them leaves in the table. */
  lemma {:induction false} LiveInstance(done: Log, id: string)
    requires LastCreation(done) < |done| && AllAbout(done, id)
    ensures var c := LastCreation(done);
            LiveFold(done).Some? && Shows(LiveFold(done).value, id, done[c], done[c + 1..], done[|done| - 1].offset)
  {
    var n, c := |done| - 1, LastCreation(done);
    if c == n {
      ShowsCreated(done[n], id);
      assert done[c + 1..] == [];
    } else {
      hide Shows, Created, Updated;
      var before, rec := done[..n], done[n];
      assert LastCreation(before) == c;
      hide LastCreation;
      LiveInstance(before, id);
      ShowsNext(LiveFold(before).value, id, done[c], before[c + 1..], before[n - 1].offset, rec);
      assert done[c + 1..] == before[c + 1..] + [rec];
    }
  }

  /** The events behind the last creation are the last events. */
  lemma {:induction false} SinceIsSuffix(done: Log, c: nat)
    requires c < |done| && done[c].entry.CreateInstance?
    requires forall k :: c < k < |done| ==> !done[k].entry.CreateInstance?
    ensures Events(done) == Events(done[..c]) + done[c + 1..]
  {
    var n := |done| - 1;
    if c < n {
      SinceIsSuffix(done[..n], c);
      assert done[..n][..c] == done[..c];
      assert done[..n][c + 1..] + [done[n]] == done[c + 1..];
    } else {
      assert done[c + 1..] == [];
    }
  }

  lemma {:induction false} OnlyEventsMatter(creation: LogRecord, own: Log)
    requires creation.entry.CreateInstance?
    ensures Look(creation, own) == Look(creation, Events(own))
    ensures HasDeletion(own) <==> HasDeletion(Events(own))
  {
    if own == [] {
    } else {
      var before, rec := own[..|own| - 1], own[|own| - 1];
      OnlyEventsMatter(creation, before);
      assert own == before + [rec];
      DeletionLast(before, rec);
      DeletionLast(Events(before), rec);
      assert (Events(before) + [rec])[..|Events(before)|] == Events(before);
    }
  }

  /** A move among the last events decides, whatever was there before. */
  lemma {:induction false} LastMoveDecides(a: LogRecord, b: LogRecord, before: Log, since: Log)
    requires a.entry.CreateInstance? && b.entry.CreateInstance?
    ensures HasMove(since) ==> Look(a, before + since) == Look(b, since)
    ensures !HasMove(since) ==> Look(b, since) == Look(b, [])
    ensures HasDeletion(since) ==> HasDeletion(before + since)
  {
    var n, all := |since| - 1, before + since;
    if since == [] {
    } else {
      LastMoveDecides(a, b, before, since[..n]);
      assert all[..|all| - 1] == before + since[..n] && all[|all| - 1] == since[n];
      assert all == before + since[..n] + [since[n]] && since == since[..n] + [since[n]];
      DeletionLast(since[..n], since[n]);
      DeletionLast(before + since[..n], since[n]);
      if !since[n].entry.ApplyEvent? && HasMove(since) {
        var k :| 0 <= k < |since| && since[k].entry.ApplyEvent?;
        assert since[..n][k] == since[k];
      } else if HasMove(since[..n]) {
        var k :| 0 <= k < n && since[..n][k].entry.ApplyEvent?;
        assert since[k] == since[..n][k];
      }
    }
  }

  /** Records of the one and the other order with the same offset are the same record. */
  ghost predicate OneOffsetEach(own: Log, done: Log) {
    forall i, j :: 0 <= i < |own| && 0 <= j < |done| && own[i].offset == done[j].offset ==> own[i] == done[j]
  }

  lemma AgreeWithoutEvents(own: Log, done: Log, id: string)
    requires own != [] && own[0].entry.CreateInstance? && AllAbout(own, id) && AllAbout(done, id)
    requires LastCreation(done) < |done| && OneOffsetEach(own, done)
    requires Events(own) == [] && Events(done) == []
    ensures Matches(LiveFold(done), Fold(own)) <==> Agree(own, done)
  {
    hide Fold, LiveFold, Events, LastCreation, Look;
    var c := LastCreation(done);
    SinceIsSuffix(done, c) by { LastCreationIsLast(done); }
    ReplayedInstance(own, id);
    LiveInstance(done, id);
    OnlyEventsMatter(own[0], own);
    assert done[c + 1..] == [] && c == |done| - 1;
  }

  lemma LastCreationIsLast(done: Log)
    ensures forall k :: LastCreation(done) < k < |done| ==> !done[k].entry.CreateInstance?
  {
    hide LastCreation;
  }

  lemma AgreeWithEvents(own: Log, done: Log, id: string)
    requires own != [] && own[0].entry.CreateInstance? && AllAbout(own, id) && AllAbout(done, id)
    requires LastCreation(done) < |done| && OneOffsetEach(own, done)
    requires Events(own) == Events(done) && Events(own) != []
    ensures Matches(LiveFold(done), Fold(own)) <==> Agree(own, done)
  {
    hide Fold, LiveFold, Events, LastCreation, Look, HasMove, HasDeletion, Shows;
    var c, events := LastCreation(done), Events(own);
    var since := done[c + 1..];
    SinceIsSuffix(done, c) by { LastCreationIsLast(done); }
    ReplayedInstance(own, id);
    LiveInstance(done, id);
    OnlyEventsMatter(own[0], own);
    LastMoveDecides(own[0], done[c], Events(done[..c]), since);
    var k := EventsAreOwn(own);
    if since == [] {
      assert done[c].offset != own[k].offset;
    } else {
      assert events[|events| - 1] == since[|since| - 1] == done[|done| - 1];
    }
    SameShown(LiveFold(done).value, Fold(own).value, id, done[c], own[0], since, events,
              done[|done| - 1].offset, events[|events| - 1].offset);
  }

  /** Two instances are the same if and only if all that describes them is. */
  lemma SameShown(i: Instance, j: Instance, id: string, a: LogRecord, b: LogRecord, behindA: Log, behindB: Log,
                  offsetA: nat, offsetB: nat)
    requires a.entry.CreateInstance? && b.entry.CreateInstance?
    requires Shows(i, id, a, behindA, offsetA) && Shows(j, id, b, behindB, offsetB)
    ensures SameInstance(i, j) <==>
              && SameMachine(a, b) && Look(a, behindA) == Look(b, behindB) && offsetA == offsetB
              && (HasDeletion(behindA) <==> HasDeletion(behindB))
  {
    hide Look, HasDeletion;
  }

  /** The last event is one of the records, and creates nothing. */
  lemma {:induction false} EventsAreOwn(own: Log) returns (k: nat)
    requires Events(own) != []
    ensures k < |own| && own[k] == Events(own)[|Events(own)| - 1] && !own[k].entry.CreateInstance?
  {
    var n := |own| - 1;
    if own[n].entry.CreateInstance? {
      k := EventsAreOwn(own[..n]);
    } else {
      k := n;
    }
  }

  /** At rest, every record is applied. */
  lemma RestIsApplied(env: Env, s: State, order: Log, rec: LogRecord)
    requires LogInv(env, s, order) && AtRest(s)
    ensures rec in s.log <==> rec in order
  {
    hide Parses;
    assert !InHand(s, rec);
  }

  lemma SameOwn(env: Env, s: State, order: Log, id: string)
    requires LogInv(env, s, order) && AtRest(s)
    ensures AllAbout(Own(s.log, id), id) && AllAbout(Own(order, id), id)
    ensures forall rec :: rec in Own(s.log, id) <==> rec in Own(order, id)
    ensures OneOffsetEach(Own(s.log, id), Own(order, id))
  {
    hide AtRest, Own, Parses, InHand, About;
    var own, done := Own(s.log, id), Own(order, id);
    forall rec ensures (rec in own <==> rec in done) && (rec in own ==> About(rec.entry, id) && rec in s.log) {
      OwnIn(s.log, id, rec);
      OwnIn(order, id, rec);
      RestIsApplied(env, s, order, rec);
    }
    forall k | 0 <= k < |own| ensures About(own[k].entry, id) { assert own[k] in own; }
    forall k | 0 <= k < |done| ensures About(done[k].entry, id) { assert done[k] in own; }
    forall i, j | 0 <= i < |own| && 0 <= j < |done| && own[i].offset == done[j].offset ensures own[i] == done[j] {
      assert own[i] in own && done[j] in own;
    }
  }

  /** At rest, an instance is what replay rebuilds if and only if the two orders of its records agree. */
  lemma InstanceAtRest(env: Env, s: State, order: Log, id: string)
    requires OrderInv(env, s, order) && AtRest(s)
    ensures var own := Own(s.log, id);
            if own == [] then Settled(s, id)
            else own[0].entry.CreateInstance? && (Settled(s, id) <==> Agree(own, Own(order, id)))
  {
    hide Own, Fold, LiveFold, Events, LastCreation, Look, HasMove, HasDeletion, Parses, OneOffsetEach, AllAbout,
         ThreadOk, MachineOk, HeldOk, Agree, Matches;
    var own, done := Own(s.log, id), Own(order, id);
    assert InstanceOk(s, order, id);
    SameOwn(env, s, order, id);
    assert Coming(s, id) == [];
    if own == [] {
      NothingApplied(own, done);
      assert Matches(None, None) by { MatchesNone(); }
    } else {
      assert own[0] in done;
      var k :| 0 <= k < |done| && done[k] == own[0];
      assert LastCreation(done) < |done|;
      if Events(own) == [] {
        AgreeWithoutEvents(own, done, id);
      } else {
        AgreeWithEvents(own, done, id);
      }
    }
  }

  lemma MatchesNone()
    ensures Matches(None, None)
  {
  }

  lemma NothingApplied(own: Log, done: Log)
    requires own == [] && forall rec :: rec in own <==> rec in done
    ensures LiveFold(done) == None && Fold(own) == None
  {
    assert forall k :: 0 <= k < |done| ==> done[k] in own;
  }

  // ---------------------------------------------------------------------------------------------------------------
  // Machines
  // ---------------------------------------------------------------------------------------------------------------

  /** Replay keeps the first machine of a name and version. */
  lemma {:induction false} ReplayKeepsFirst(env: Env, log: Log, key: MachineKey)
    requires forall rec :: rec in log ==> Parses(env, rec)
    ensures var puts := Puts(log, key);
            && (key in Replay(env, log).defs <==> puts != [])
            && (puts != [] ==> puts[0].entry.PutMachine?
                               && MachineOf(env, puts[0]) == Ok(Replay(env, log).defs[key]))
  {
    hide FromJson, Created, Replayed;
    if log == [] {
    } else {
      var before, rec := log[..|log| - 1], log[|log| - 1];
      assert rec in log && forall r :: r in before ==> r in log;
      ReplayKeepsFirst(env, before, key);
      if rec.entry.PutMachine? {
        NullIsNoDefinition(env, rec.entry.machine, rec.entry.version);
      }
    }
  }

  /** The machine that was logged first is the one that was stored last, or equals it. */
  ghost predicate PutsAgree(env: Env, puts: Log, done: Log) {
    && puts != [] && done != [] && puts[0].entry.PutMachine? && done[|done| - 1].entry.PutMachine?
    && MachineOf(env, puts[0]) == MachineOf(env, done[|done| - 1])
  }

  lemma MachineAtRest(env: Env, s: State, order: Log, key: MachineKey)
    requires OrderInv(env, s, order) && AtRest(s)
    ensures MachineSettled(env, s, key)
       <==> (Puts(s.log, key) != [] ==> PutsAgree(env, Puts(s.log, key), Puts(order, key)))
  {
    hide Replay, Puts, MachineOf, Parses, InstanceOk, ThreadOk, HeldOk, IsPut, AtRest;
    var puts, done := Puts(s.log, key), Puts(order, key);
    ReplayKeepsFirst(env, s.log, key);
    assert MachineOk(env, s, order, key);
    forall rec ensures rec in puts <==> rec in done {
      PutsIn(s.log, key, rec);
      PutsIn(order, key, rec);
      RestIsApplied(env, s, order, rec);
    }
    assert puts != [] ==> puts[0] in done;
    assert done != [] ==> done[0] in puts;
  }

  // ---------------------------------------------------------------------------------------------------------------
  // All interleavings
  // ---------------------------------------------------------------------------------------------------------------

  ghost predicate InstanceAgrees(log: Log, order: Log, id: string) {
    var own := Own(log, id);
    own != [] ==> own[0].entry.CreateInstance? && Agree(own, Own(order, id))
  }

  ghost predicate MachineAgrees(env: Env, log: Log, order: Log, key: MachineKey) {
    Puts(log, key) != [] ==> PutsAgree(env, Puts(log, key), Puts(order, key))
  }

  lemma SettledMeansReplay(env: Env, s: State)
    requires (forall id :: Settled(s, id)) && (forall key :: MachineSettled(env, s, key))
    ensures SameTables(s.es, Replay(env, s.log))
  {
    hide Replay, FromJson, Own, Fold;
    var es, rs := s.es, Replay(env, s.log);
    forall id ensures Matches(At(es.instances, id), At(rs.instances, id)) {
      assert Settled(s, id);
      ReplayIsFold(env, s.log, id);
    }
    assert es.instances.Keys == rs.instances.Keys by {
      forall id ensures id in es.instances.Keys <==> id in rs.instances.Keys {
        assert Matches(At(es.instances, id), At(rs.instances, id));
      }
    }
    forall id | id in es.instances ensures SameInstance(es.instances[id], rs.instances[id]) {
      assert Matches(At(es.instances, id), At(rs.instances, id));
    }
    forall key ensures (key in es.defs <==> key in rs.defs) && (key in es.defs ==> es.defs[key] == rs.defs[key]) {
      assert MachineSettled(env, s, key);
    }
    assert es.defs == rs.defs;
  }

  lemma ReplayMeansSettled(env: Env, s: State)
    requires SameTables(s.es, Replay(env, s.log))
    ensures (forall id :: Settled(s, id)) && (forall key :: MachineSettled(env, s, key))
  {
    hide Replay, FromJson, Own, Fold;
    var es, rs := s.es, Replay(env, s.log);
    forall id ensures Settled(s, id) {
      ReplayIsFold(env, s.log, id);
      assert id in es.instances.Keys <==> id in rs.instances.Keys;
    }
  }

  /**
   In every interleaving, overlapping calls included: when the engine is at rest, its tables are what replaying the
   log rebuilds if and only if, for every instance and every machine, the order of the log and the order of
   application agree.
   */
  lemma RestIsReplay(env: Env, states: seq<State>, actions: seq<Action>, k: nat)
    requires IsSchedule(env, states, actions) && FreshOffsets(states, actions) && k <= |actions| && AtRest(states[k])
    ensures var s, order := states[k], Order(env, states, actions, k);
            (SameTables(s.es, Replay(env, s.log)) <==>
               (forall id :: InstanceAgrees(s.log, order, id)) && forall key :: MachineAgrees(env, s.log, order, key))
  {
    TablesFollowTheOrder(env, states, actions, k);
    var s, order := states[k], Order(env, states, actions, k);
    hide Replay, Order, OrderInv, Own, Agree, Puts, PutsAgree, Settled, MachineSettled, AtRest, IsSchedule, SameTables;
    if SameTables(s.es, Replay(env, s.log)) {
      ReplayMeansSettled(env, s);
    }
    if (forall id :: Settled(s, id)) && (forall key :: MachineSettled(env, s, key)) {
      SettledMeansReplay(env, s);
    }
    forall id ensures Settled(s, id) <==> InstanceAgrees(s.log, order, id) { InstanceAtRest(env, s, order, id); }
    forall key ensures MachineSettled(env, s, key) <==> MachineAgrees(env, s.log, order, key) {
      MachineAtRest(env, s, order, key);
    }
    assert (forall id :: Settled(s, id)) <==> forall id :: InstanceAgrees(s.log, order, id);
    assert (forall key :: MachineSettled(env, s, key)) <==> forall key :: MachineAgrees(env, s.log, order, key);
  }

  /**
   However many threads created an instance at the same time, and in whatever order they went on: as long as nothing
   else happened to it, it is at rest what replay rebuilds if and only if the creation that was logged first was
   applied last.
   */
  lemma FirstLoggedLastApplied(env: Env, states: seq<State>, actions: seq<Action>, k: nat, id: string)
    requires IsSchedule(env, states, actions) && FreshOffsets(states, actions) && k <= |actions| && AtRest(states[k])
    requires Own(states[k].log, id) != []
    requires forall rec :: rec in Own(states[k].log, id) ==> rec.entry.CreateInstance?
    ensures var own, done := Own(states[k].log, id), Own(Order(env, states, actions, k), id);
            done != [] && (Settled(states[k], id) <==> done[|done| - 1] == own[0])
  {
    TablesFollowTheOrder(env, states, actions, k);
    var s, order := states[k], Order(env, states, actions, k);
    hide Order, Settled, OrderInv, AtRest, IsSchedule, Own, LastCreation;
    InstanceAtRest(env, s, order, id);
    var own, done := Own(s.log, id), Own(order, id);
    SameOwn(env, s, order, id) by { InvHasLog(env, s, order); }
    assert own[0] in done;
    NoEvents(own);
    assert done[|done| - 1] in own;
    assert LastCreation(done) == |done| - 1;
  }

  lemma InvHasLog(env: Env, s: State, order: Log)
    requires OrderInv(env, s, order)
    ensures LogInv(env, s, order)
  {
  }

  lemma {:induction false} NoEvents(own: Log)
    requires forall rec :: rec in own ==> rec.entry.CreateInstance?
    ensures Events(own) == []
  {
    if own == [] {
    } else {
      assert own[|own| - 1] in own && forall rec :: rec in own[..|own| - 1] ==> rec in own;
      NoEvents(own[..|own| - 1]);
    }
  }

  /**
   However many threads put a machine at the same time, it is at rest what replay rebuilds if and only if the machine
   that was logged first was stored last, or equals the one that was.
   */
  lemma FirstLoggedLastStored(env: Env, states: seq<State>, actions: seq<Action>, k: nat, key: MachineKey)
    requires IsSchedule(env, states, actions) && FreshOffsets(states, actions) && k <= |actions| && AtRest(states[k])
    requires Puts(states[k].log, key) != []
    ensures MachineSettled(env, states[k], key)
       <==> PutsAgree(env, Puts(states[k].log, key), Puts(Order(env, states, actions, k), key))
  {
    TablesFollowTheOrder(env, states, actions, k);
    hide Order, MachineSettled, OrderInv, AtRest, IsSchedule, Puts, PutsAgree;
    MachineAtRest(env, states[k], Order(env, states, actions, k), key);
  }
}
