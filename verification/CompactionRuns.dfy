/** Runs that show where recovery and restart after compaction end. */
module CompactionRuns {
  import opened Common
  import opened Json
  import opened Definition
  import opened Entry
  import opened Offset
  import opened Wal
  import opened Engine
  import opened EngineSafety
  import opened Compaction
  import opened Samples

  /** The conditions on a run, one by one, to say which of them a run breaks. */
  datatype Breach = Nothing | OfMeasuring | OfListing | OfStores | OfRequests

  ghost predicate CarefulBut(s: Store, a: Action, b: Breach) {
    && (Alone(s, a) || b.OfMeasuring?) && (ListsUndisturbed(s, a) || b.OfListing?)
    && (OneStore(a) || b.OfStores?) && (RequestsWait(s, a) || b.OfRequests?)
  }

  ghost predicate Leads(env: Env, s: Store, actions: seq<Action>, s': Store, b: Breach)
    decreases |actions|
  {
    if actions == [] then s' == s
    else
      && Enabled(s, actions[0]) && CarefulBut(s, actions[0], b)
      && Leads(env, Next(env, s, actions[0]), actions[1..], s', b)
  }

  lemma {:induction false} LeadsOn(
    env: Env, s: Store, done: seq<Action>, mid: Store, more: seq<Action>, s': Store, b: Breach)
    requires Leads(env, s, done, mid, b) && Leads(env, mid, more, s', b)
    ensures Leads(env, s, done + more, s', b)
    decreases |done|
  {
    hide Enabled, Next, CarefulBut;
    if done == [] {
      assert done + more == more;
    } else {
      assert (done + more)[0] == done[0] && (done + more)[1..] == done[1..] + more;
      LeadsOn(env, Next(env, s, done[0]), done[1..], mid, more, s', b);
    }
  }

  lemma Then(env: Env, s: Store, done: seq<Action>, mid: Store, a: Action, b: Breach)
    requires Leads(env, s, done, mid, b) && Enabled(mid, a) && CarefulBut(mid, a, b)
    ensures Leads(env, s, done + [a], Next(env, mid, a), b)
  {
    hide Enabled, Next, CarefulBut;
    LeadsOn(env, s, done, mid, [a], Next(env, mid, a), b);
  }

  /** A run of that kind. */
  ghost predicate RunBut(env: Env, states: seq<Store>, actions: seq<Action>, b: Breach) {
    && IsRun(env, states, actions)
    && forall i :: 0 <= i < |actions| ==> CarefulBut(states[i], actions[i], b)
  }

  lemma {:induction false} LeadsFrom(env: Env, first: Store, actions: seq<Action>, last: Store, b: Breach)
    returns (states: seq<Store>)
    requires Leads(env, first, actions, last, b)
    ensures |states| == |actions| + 1 && states[0] == first && states[|actions|] == last
    ensures forall i :: 0 <= i < |actions| ==>
              && Enabled(states[i], actions[i]) && states[i + 1] == Next(env, states[i], actions[i])
              && CarefulBut(states[i], actions[i], b)
    decreases |actions|
  {
    hide Enabled, Next, CarefulBut;
    if actions == [] {
      states := [first];
    } else {
      var rest := LeadsFrom(env, Next(env, first, actions[0]), actions[1..], last, b);
      states := [first] + rest;
      forall i | 0 <= i < |actions|
        ensures Enabled(states[i], actions[i]) && states[i + 1] == Next(env, states[i], actions[i])
        ensures CarefulBut(states[i], actions[i], b)
      {
        if i > 0 {
          assert actions[i] == actions[1..][i - 1] && states[i] == rest[i - 1] && states[i + 1] == rest[i];
        }
      }
    }
  }

  /** A call is a step. */
  lemma Calls(env: Env, done: seq<Action>, s: Store, call: Call, db: Db, b: Breach)
    requires Leads(env, START, done, s, b) && call.wal.Ok? && call.wal.value.1 > s.top
    requires Exec(env, s.db, call).0 == db && |db.log| > |s.db.log|
    requires !call.op.Put? ==> call.op.id !in s.entering
    requires b.OfListing? || forall j :: j in s.jobs ==> s.jobs[j].left.None?
    ensures Leads(env, START, done + [Operate(call)], s.(db := db, top := call.wal.value.1), b)
  {
    hide Exec, Leads;
    Then(env, START, done, s, Operate(call), b);
  }

  lemma Nowhere(env: Env, s: Store, b: Breach)
    ensures Leads(env, s, [], s, b)
  {
  }

  // ---------------------------------------------------------------------------------------------------------------
  // Listing
  // ---------------------------------------------------------------------------------------------------------------

  /** A compaction that has still to visit `left`. */
  function Listing(s: Store, j: nat, force: bool, left: set<string>): Store {
    WithJob(s, j, Job(false, force, 0, Some(left), Live(s.db.es.instances) - left, {}, 0, None))
  }

  /** A compaction that has listed every live instance. */
  function ListedAll(s: Store, j: nat, force: bool): Store {
    WithJob(s, j, Job(false, force, 0, None, Live(s.db.es.instances), {}, s.top, None))
  }

  lemma BeginsListing(env: Env, s: Store, j: nat, force: bool)
    requires j !in s.jobs && s.entering == {}
    ensures Enabled(s, Begin(j, force, 0))
    ensures Next(env, s, Begin(j, force, 0)) == Listing(s, j, force, s.db.es.instances.Keys)
  {
    assert Visible(s) == s.db.es.instances;
    assert Live(s.db.es.instances) - s.db.es.instances.Keys == map[];
  }

  lemma VisitsOne(env: Env, s: Store, j: nat, force: bool, left: set<string>, id: string)
    requires s.entering == {} && id in left && id in s.db.es.instances
    ensures Enabled(Listing(s, j, force, left), Visit(j, id))
    ensures Next(env, Listing(s, j, force, left), Visit(j, id)) == Listing(s, j, force, left - {id})
  {
    var live, mid := Live(s.db.es.instances), Listing(s, j, force, left);
    assert Visible(mid) == s.db.es.instances;
    if id in live {
      assert (live - left)[id := live[id]] == live - (left - {id});
    } else {
      assert live - left == live - (left - {id});
    }
    assert mid.jobs[j := Listing(s, j, force, left - {id}).jobs[j]] == Listing(s, j, force, left - {id}).jobs;
  }

  lemma EndsListing(env: Env, s: Store, j: nat, force: bool)
    ensures Enabled(Listing(s, j, force, {}), Listed(j))
    ensures Next(env, Listing(s, j, force, {}), Listed(j)) == ListedAll(s, j, force)
  {
    assert Live(s.db.es.instances) - {} == Live(s.db.es.instances);
    assert Listing(s, j, force, {}).jobs[j := ListedAll(s, j, force).jobs[j]] == ListedAll(s, j, force).jobs;
  }

  /** With nobody in between, a listing finds exactly the live instances. */
  lemma {:induction false} ListsAll(env: Env, s: Store, j: nat, force: bool, left: set<string>, b: Breach)
    returns (actions: seq<Action>)
    requires s.entering == {} && left <= s.db.es.instances.Keys
    ensures Leads(env, Listing(s, j, force, left), actions, ListedAll(s, j, force), b)
    ensures forall i :: 0 <= i < |actions| ==> actions[i].Visit? || actions[i].Listed?
    decreases |left|
  {
    hide Leads, Live, Enabled, Next, Listing, ListedAll;
    var mid := Listing(s, j, force, left);
    if left == {} {
      EndsListing(env, s, j, force);
      Nowhere(env, mid, b);
      Then(env, mid, [], mid, Listed(j), b);
      actions := [] + [Listed(j)];
    } else {
      var id :| id in left;
      VisitsOne(env, s, j, force, left, id);
      Nowhere(env, mid, b);
      Then(env, mid, [], mid, Visit(j, id), b);
      var more := ListsAll(env, s, j, force, left - {id}, b);
      LeadsOn(env, mid, [] + [Visit(j, id)], Listing(s, j, force, left - {id}), more, ListedAll(s, j, force), b);
      actions := [] + [Visit(j, id)] + more;
    }
  }

  // ---------------------------------------------------------------------------------------------------------------
  // Compactions with one instance to deal with
  // ---------------------------------------------------------------------------------------------------------------

  /** After a machine is put and an instance created, in segment 1. */
  function Base(env: Env): Store {
    var puts := LogRecord(1, SEGMENT_SPAN, PutMachine("m", 1, SampleMachine(env, None).checksum, Sample(None)));
    var creates := LogRecord(2, SEGMENT_SPAN + 1, CreateInstance("X", "m", 1, "a", Null, None));
    var es := EngineState(map[KEY := SampleMachine(env, None)], map["X" := Made("X", SEGMENT_SPAN + 1)], map[]);
    Store(Db(es, [puts, creates]), SEGMENT_SPAN + 1, 0, {}, map[], map[], map[])
  }

  lemma ToBase(env: Env, b: Breach) returns (actions: seq<Action>)
    ensures Leads(env, START, actions, Base(env), b)
  {
    hide Leads, Exec, SampleMachine, Sample;
    Nowhere(env, START, b);
    PutRuns(env, START.db, 1, SEGMENT_SPAN);
    var db1 := Exec(env, START.db, PutCall(1, SEGMENT_SPAN)).0;
    Calls(env, [], START, PutCall(1, SEGMENT_SPAN), db1, b);
    assert EMPTY.defs[KEY := SampleMachine(env, None)] == map[KEY := SampleMachine(env, None)];
    CreateRuns(env, db1, "X", 2, SEGMENT_SPAN + 1);
    var db2 := Exec(env, db1, CreateCall("X", 2, SEGMENT_SPAN + 1)).0;
    Calls(env, [] + [Operate(PutCall(1, SEGMENT_SPAN))], START.(db := db1, top := SEGMENT_SPAN),
          CreateCall("X", 2, SEGMENT_SPAN + 1), db2, b);
    actions := [] + [Operate(PutCall(1, SEGMENT_SPAN))] + [Operate(CreateCall("X", 2, SEGMENT_SPAN + 1))];
    assert db2 == Base(env).db;
  }

  /** Job `j` with its listing done and `i` to deal with, or with nothing left, or with its target computed. */
  function Has(s: Store, j: nat, i: Instance): Store {
    WithJob(s, j, Job(false, true, 0, None, map[i.id := i], {}, s.top, None))
  }

  function HasSaved(s: Store, j: nat, i: Instance): Store {
    var snaps := map[i.id := FromInstance(i, "s")];
    s.(snaps := snaps, indexes := s.indexes[0 := snaps],
       jobs := s.jobs[j := Job(false, true, 0, None, map[], {}, s.top, None)])
  }

  function HasDropped(s: Store, j: nat, least: nat): Store
    requires j in s.jobs
  {
    s.(floor := Max(s.floor, SegmentOf(least)), jobs := s.jobs[j := s.jobs[j].(target := Some(SegmentOf(least)))])
  }

  lemma Saves(env: Env, done: seq<Action>, s: Store, j: nat, i: Instance, b: Breach) returns (actions: seq<Action>)
    requires Leads(env, START, done, Has(s, j, i), b) && IndexOf(s, 0) == map[]
    ensures Leads(env, START, actions, HasSaved(s, j, i), b)
  {
    hide Leads, Exec;
    var s1 := Has(s, j, i);
    Then(env, START, done, s1, Look(j, i.id), b);
    var s2 := WithJob(s, j, s1.jobs[j].(due := {i.id}));
    assert Next(env, s1, Look(j, i.id)) == s2 by {
      assert {} + {i.id} == {i.id};
      assert s1.jobs[j := s2.jobs[j]] == s2.jobs;
    }
    Then(env, START, done + [Look(j, i.id)], s2, Save(j, i.id, "s"), b);
    actions := done + [Look(j, i.id)] + [Save(j, i.id, "s")];
    assert Next(env, s2, Save(j, i.id, "s")) == HasSaved(s, j, i) by {
      assert map[i.id := i] - {i.id} == map[] && {i.id} - {i.id} == {};
      assert IndexOf(s, 0)[i.id := FromInstance(i, "s")] == map[i.id := FromInstance(i, "s")];
    }
  }

  lemma MeasuresAndDrops(env: Env, done: seq<Action>, s: Store, j: nat, x: string, b: Breach)
    returns (actions: seq<Action>)
    requires Leads(env, START, done, s, b)
    requires j in s.jobs && IsMeasuring(s.jobs[j]) && s.jobs[j].pending == map[] && s.jobs[j].store == 0
    requires x in s.snaps && IndexOf(s, 0) == s.snaps && s.snaps.Keys == {x}
    requires b.OfMeasuring? || forall i :: i in s.jobs && i != j ==> s.jobs[i].pending == map[]
    ensures Leads(env, START, actions, HasDropped(s, j, s.snaps[x].walOffset), b)
  {
    hide Leads;
    var m := s.snaps[x].walOffset;
    Then(env, START, done, s, Measure(j, Some(m)), b);
    var s1 := Next(env, s, Measure(j, Some(m)));
    Then(env, START, done + [Measure(j, Some(m))], s1, Drop(j, SegmentOf(m)), b);
    actions := done + [Measure(j, Some(m))] + [Drop(j, SegmentOf(m))];
  }

  function Compacted(s: Store, j: nat, i: Instance): Store { HasDropped(HasSaved(s, j, i), j, i.lastWalOffset) }

  /** From the end of its listing on, a compaction of one live instance. */
  lemma Finishes(env: Env, done: seq<Action>, s: Store, j: nat, i: Instance, b: Breach) returns (actions: seq<Action>)
    requires Leads(env, START, done, Has(s, j, i), b) && IndexOf(s, 0) == map[]
    requires b.OfMeasuring? || forall k :: k in s.jobs && k != j ==> s.jobs[k].pending == map[]
    ensures Leads(env, START, actions, Compacted(s, j, i), b)
  {
    hide Leads;
    actions := Saves(env, done, s, j, i, b);
    var s1 := HasSaved(s, j, i);
    assert s1.snaps.Keys == {i.id};
    actions := MeasuresAndDrops(env, actions, s1, j, i.id, b);
  }

  /** A whole compaction. */
  lemma Compacts(env: Env, done: seq<Action>, s: Store, j: nat, i: Instance, b: Breach) returns (actions: seq<Action>)
    requires Leads(env, START, done, s, b) && j !in s.jobs && IndexOf(s, 0) == map[] && s.entering == {}
    requires Live(s.db.es.instances) == map[i.id := i]
    requires b.OfMeasuring? || s.jobs == map[]
    ensures Leads(env, START, actions, Compacted(s, j, i), b)
  {
    hide Leads, Live, Exec, Compacted;
    var keys := s.db.es.instances.Keys;
    BeginsListing(env, s, j, true);
    Then(env, START, done, s, Begin(j, true, 0), b);
    var more := ListsAll(env, s, j, true, keys, b);
    LeadsOn(env, START, done + [Begin(j, true, 0)], Listing(s, j, true, keys), more, ListedAll(s, j, true), b);
    assert ListedAll(s, j, true) == Has(s, j, i);
    actions := Finishes(env, done + [Begin(j, true, 0)] + more, s, j, i, b);
  }

  // ---------------------------------------------------------------------------------------------------------------
  // What is lost
  // ---------------------------------------------------------------------------------------------------------------

  lemma {:induction false} NeverCreated(m: map<string, Instance>, log: Log, id: string)
    requires id !in m && forall k :: 0 <= k < |log| ==> !CreatesId(log[k].entry, id)
    ensures id !in StoreFold(m, log)
  {
    if log == [] {
    } else {
      NeverCreated(m, log[..|log| - 1], id);
    }
  }

  lemma {:induction false} RetainedIsHigh(log: Log, floor: nat, rec: LogRecord)
    requires rec in FromSegment(log, floor)
    ensures rec in log && SegmentOf(rec.offset) >= floor
  {
    var n := |log| - 1;
    if rec in FromSegment(log[..n], floor) {
      RetainedIsHigh(log[..n], floor, rec);
    } else {
      assert rec == log[n];
    }
  }

  /** A live instance without a snapshot, whose creation is not retained, is lost. */
  lemma Lost(s: Store, id: string)
    requires id !in s.snaps && IsActive(At(s.db.es.instances, id))
    requires forall k :: 0 <= k < |s.db.log| && CreatesId(s.db.log[k].entry, id) ==>
               SegmentOf(s.db.log[k].offset) < s.floor
    ensures id !in Recover(s.snaps, Retained(s))
    ensures !RecoversAs(At(Recover(s.snaps, Retained(s)), id), At(s.db.es.instances, id))
  {
    hide FromSegment, StoreFold;
    var retained := Retained(s);
    forall k | 0 <= k < |retained| ensures !CreatesId(retained[k].entry, id) {
      RetainedIsHigh(s.db.log, s.floor, retained[k]);
    }
    NeverCreated(map x | x in s.snaps :: ToInstance(s.snaps[x]), retained, id);
  }

  // ---------------------------------------------------------------------------------------------------------------
  // A creation record is dropped
  // ---------------------------------------------------------------------------------------------------------------

  function MovedX(): Instance { Made("X", SEGMENT_SPAN + 1).(lastEventId := None, lastWalOffset := 2 * SEGMENT_SPAN) }

  function XMoves(n: nat): LogRecord {
    LogRecord(n, 2 * SEGMENT_SPAN, ApplyEvent("X", "e", "a", "a", Null, Null, None, None))
  }

  /** An event in segment 2. */
  function Moved(env: Env): Store {
    var es := Base(env).db.es.(instances := map["X" := MovedX()]);
    Base(env).(db := Db(es, Base(env).db.log + [XMoves(3)]), top := 2 * SEGMENT_SPAN)
  }

  lemma ToCompacted(env: Env, b: Breach) returns (actions: seq<Action>)
    ensures Leads(env, START, actions, Compacted(Moved(env), 1, MovedX()), b)
  {
    hide Leads, SampleMachine, Sample, Exec, Compacted;
    var done := ToBase(env, b);
    var s, call := Base(env), EventCall("X", None, 3, 2 * SEGMENT_SPAN);
    assert AtStart(env, s.db.es, "X");
    EventRuns(env, s.db, "X", None, 3, 2 * SEGMENT_SPAN);
    var db := Exec(env, s.db, call).0;
    Calls(env, done, s, call, db, b);
    assert db.es.instances == Moved(env).db.es.instances && db == Moved(env).db;
    assert Live(db.es.instances) == map["X" := MovedX()];
    actions := Compacts(env, done + [Operate(call)], Moved(env), 1, MovedX(), b);
  }

  /** The event, and then a compaction: replaying what is left does not bring back the instance. */
  lemma CreationDropped(env: Env) returns (states: seq<Store>, actions: seq<Action>)
    ensures IsRun(env, states, actions) && Considerate(states, actions)
    ensures var s := states[|actions|];
            "X" in Live(s.db.es.instances) && "X" !in Replay(env, Retained(s)).instances
  {
    hide Leads, SampleMachine, Sample, Exec;
    actions := ToCompacted(env, Nothing);
    var last := Compacted(Moved(env), 1, MovedX());
    states := LeadsFrom(env, START, actions, last, Nothing);
    OnlyEventLeft(env, last);
  }

  lemma OnlyEventLeft(env: Env, s: Store)
    requires |s.db.log| == 3 && s.floor == 2
    requires s.db.log[0].offset == SEGMENT_SPAN && s.db.log[1].offset == SEGMENT_SPAN + 1
    requires s.db.log[2].entry.ApplyEvent? && s.db.log[2].offset == 2 * SEGMENT_SPAN
    ensures "X" !in Replay(env, Retained(s)).instances
  {
    var log := s.db.log;
    OneLeft(log, 2);
    ReplayLast(env, [], log[2]);
    assert [] + [log[2]] == [log[2]];
  }

  // ---------------------------------------------------------------------------------------------------------------
  // Two compactions overlap
  // ---------------------------------------------------------------------------------------------------------------

  function GoneX(): Instance { Made("X", SEGMENT_SPAN + 1).(lifecycle := Deleted, lastWalOffset := SEGMENT_SPAN + 2) }
  function NewY(): Instance { Made("Y", 3 * SEGMENT_SPAN) }

  /** One compaction has listed X; then X is deleted, in segment 1, and Y created, in segment 3. */
  function Stale(env: Env): Store {
    var deletes := LogRecord(3, SEGMENT_SPAN + 2, DeleteInstance("X", None));
    var creates := LogRecord(4, 3 * SEGMENT_SPAN, CreateInstance("Y", "m", 1, "a", Null, None));
    var es := Base(env).db.es.(instances := map["X" := GoneX(), "Y" := NewY()]);
    Has(Base(env), 1, Made("X", SEGMENT_SPAN + 1)).(
      db := Db(es, Base(env).db.log + [deletes] + [creates]), top := 3 * SEGMENT_SPAN)
  }

  /** A compaction has listed X. */
  lemma ToHasX(env: Env, b: Breach) returns (actions: seq<Action>)
    ensures Leads(env, START, actions, Has(Base(env), 1, Made("X", SEGMENT_SPAN + 1)), b)
  {
    hide Leads, SampleMachine, Sample;
    var done := ToBase(env, b);
    var s := Base(env);
    BeginsListing(env, s, 1, true);
    Then(env, START, done, s, Begin(1, true, 0), b);
    var keys := s.db.es.instances.Keys;
    var more := ListsAll(env, s, 1, true, keys, b);
    LeadsOn(env, START, done + [Begin(1, true, 0)], Listing(s, 1, true, keys), more, ListedAll(s, 1, true), b);
    actions := done + [Begin(1, true, 0)] + more;
    assert Live(s.db.es.instances) == map["X" := Made("X", SEGMENT_SPAN + 1)];
  }

  lemma ToStale(env: Env) returns (actions: seq<Action>)
    ensures Leads(env, START, actions, Stale(env), OfMeasuring)
  {
    hide Leads, SampleMachine, Sample, Exec;
    actions := ToHasX(env, OfMeasuring);
    var s1 := Has(Base(env), 1, Made("X", SEGMENT_SPAN + 1));
    var gone := DeleteCall("X", 3, SEGMENT_SPAN + 2);
    DeleteRuns(env, s1.db, "X", 3, SEGMENT_SPAN + 2);
    var db1 := Exec(env, s1.db, gone).0;
    Calls(env, actions, s1, gone, db1, OfMeasuring);
    var new_ := CreateCall("Y", 4, 3 * SEGMENT_SPAN);
    CreateRuns(env, db1, "Y", 4, 3 * SEGMENT_SPAN);
    var db2 := Exec(env, db1, new_).0;
    Calls(env, actions + [Operate(gone)], s1.(db := db1, top := SEGMENT_SPAN + 2), new_, db2, OfMeasuring);
    actions := actions + [Operate(gone)] + [Operate(new_)];
    assert db2.es.instances == Stale(env).db.es.instances;
    assert s1.(db := db2, top := 3 * SEGMENT_SPAN) == Stale(env);
  }

  /** A second compaction runs from start to end; then the first one saves its clone of X. */
  lemma OverlapRevives(env: Env) returns (states: seq<Store>, actions: seq<Action>)
    ensures RunBut(env, states, actions, OfMeasuring)
    ensures var s := states[|actions|];
            !RecoversAs(At(Recover(s.snaps, Retained(s)), "X"), At(s.db.es.instances, "X"))
  {
    hide Leads, SampleMachine, Sample;
    var done := ToStale(env);
    var s := Stale(env);
    assert Live(s.db.es.instances) == map["Y" := NewY()];
    done := Compacts(env, done, s, 2, NewY(), OfMeasuring);
    var s1 := Compacted(s, 2, NewY());
    assert IndexOf(s1, 0).Keys == {"Y"};
    var s2 := SavesStale(env, done, s1, Made("X", SEGMENT_SPAN + 1));
    actions := done + [Look(1, "X")] + [Save(1, "X", "s")];
    states := LeadsFrom(env, START, actions, s2, OfMeasuring);
    XComesBack(env, s2);
  }

  /** The first compaction goes on with its clone of X. */
  lemma SavesStale(env: Env, done: seq<Action>, s: Store, i: Instance) returns (s': Store)
    requires Leads(env, START, done, s, OfMeasuring) && i.id == "X" && "X" !in IndexOf(s, 0)
    requires 1 in s.jobs && s.jobs[1] == Job(false, true, 0, None, map["X" := i], {}, SEGMENT_SPAN + 1, None)
    ensures Leads(env, START, done + [Look(1, "X")] + [Save(1, "X", "s")], s', OfMeasuring)
    ensures s'.db == s.db && s'.floor == s.floor && "X" in s'.snaps && s'.snaps["X"] == FromInstance(i, "s")
  {
    hide Leads;
    Then(env, START, done, s, Look(1, "X"), OfMeasuring);
    var s1 := Next(env, s, Look(1, "X"));
    Then(env, START, done + [Look(1, "X")], s1, Save(1, "X", "s"), OfMeasuring);
    s' := Next(env, s1, Save(1, "X", "s"));
  }

  lemma XComesBack(env: Env, s: Store)
    requires s.db == Stale(env).db && s.floor == 3
    requires "X" in s.snaps && s.snaps["X"] == FromInstance(Made("X", SEGMENT_SPAN + 1), "s")
    ensures IsActive(At(Recover(s.snaps, Retained(s)), "X")) && !IsActive(At(s.db.es.instances, "X"))
  {
    hide SampleMachine, Sample, FromSegment, StoreFold, FromInstance, Made;
    OneLeft(s.db.log, 3);
    SnapshotAndOther(s.snaps, s.db.log[3], "X");
  }

  lemma SnapshotAndOther(snaps: map<string, Snapshot>, rec: LogRecord, id: string)
    requires id in snaps && !About(rec.entry, id)
    ensures IsActive(At(Recover(snaps, [rec]), id))
  {
    var start := map id | id in snaps :: ToInstance(snaps[id]);
    assert [rec][..0] == [] && StoreFold(start, []) == start;
    assert StoreFold(start, [rec]) == StoreEntry(start, rec.entry);
  }

  // ---------------------------------------------------------------------------------------------------------------
  // A listing misses an instance
  // ---------------------------------------------------------------------------------------------------------------

  function OldY(): Instance { Made("Y", SEGMENT_SPAN + 2) }

  function YCreated(): LogRecord { LogRecord(3, SEGMENT_SPAN + 2, CreateInstance("Y", "m", 1, "a", Null, None)) }

  /** X and Y are created in segment 1; X moves in segment 2. */
  function Both(env: Env): Db {
    var es := Base(env).db.es.(instances := map["X" := MovedX(), "Y" := OldY()]);
    Db(es, Base(env).db.log + [YCreated()] + [XMoves(4)])
  }

  /** Y is live, has no snapshot, and its creation is in a segment that is gone. */
  lemma YIsLost(env: Env, s: Store)
    requires s.db == Both(env) && s.floor == 2 && "Y" !in s.snaps
    ensures !RecoversAs(At(Recover(s.snaps, Retained(s)), "Y"), At(s.db.es.instances, "Y"))
  {
    hide SampleMachine, Sample, FromSegment, StoreFold;
    Lost(s, "Y");
  }

  lemma XMovesBesideY(env: Env, done: seq<Action>, s: Store, b: Breach)
    requires Leads(env, START, done, s, b) && s.top < 2 * SEGMENT_SPAN && s.entering == {}
    requires s.db.es == Base(env).db.es.(instances := map["X" := Made("X", SEGMENT_SPAN + 1), "Y" := OldY()])
    requires s.db.log == Base(env).db.log + [YCreated()]
    ensures Leads(env, START, done + [Operate(EventCall("X", None, 4, 2 * SEGMENT_SPAN))],
                  s.(db := Both(env), top := 2 * SEGMENT_SPAN), b)
  {
    hide Leads, SampleMachine, Sample, Exec;
    var call := EventCall("X", None, 4, 2 * SEGMENT_SPAN);
    assert AtStart(env, s.db.es, "X");
    EventRuns(env, s.db, "X", None, 4, 2 * SEGMENT_SPAN);
    var db := Exec(env, s.db, call).0;
    Then(env, START, done, s, Operate(call), b);
    assert db.es.instances == Both(env).es.instances && db == Both(env);
    assert |db.log| == |s.db.log| + 1;
  }

  /** A compaction that has only X to visit: it began when Y was not in the table. */
  function OnlyX(s: Store): Store { WithJob(s, 1, Job(false, true, 0, Some({"X"}), map[], {}, 0, None)) }

  function BothStore(env: Env): Store { Base(env).(db := Both(env), top := 2 * SEGMENT_SPAN) }

  /** Such a compaction visits X in its new state, and deletes the segment with the creation of Y. */
  lemma MissesY(env: Env, done: seq<Action>) returns (states: seq<Store>, actions: seq<Action>)
    requires Leads(env, START, done, OnlyX(BothStore(env)), OfListing)
    ensures RunBut(env, states, actions, OfListing)
    ensures var s := states[|actions|];
            !RecoversAs(At(Recover(s.snaps, Retained(s)), "Y"), At(s.db.es.instances, "Y"))
  {
    hide Leads, SampleMachine, Sample, Both, MovedX, Recover;
    var s := BothStore(env);
    var s1 := OnlyX(s);
    XIsVisible(env);
    Then(env, START, done, s1, Visit(1, "X"), OfListing);
    var s2 := Next(env, s1, Visit(1, "X"));
    assert s2.jobs[1] == s1.jobs[1].(left := Some({}), pending := map["X" := MovedX()]) by {
      assert {"X"} - {"X"} == {} && map[]["X" := MovedX()] == map["X" := MovedX()];
    }
    Then(env, START, done + [Visit(1, "X")], s2, Listed(1), OfListing);
    var s3 := Next(env, s2, Listed(1));
    assert s3 == Has(s, 1, MovedX());
    actions := Finishes(env, done + [Visit(1, "X")] + [Listed(1)], s, 1, MovedX(), OfListing);
    states := LeadsFrom(env, START, actions, Compacted(s, 1, MovedX()), OfListing);
    YIsLost(env, Compacted(s, 1, MovedX())) by { MovedXAt(); }
  }

  lemma MovedXAt()
    ensures MovedX().lastWalOffset == 2 * SEGMENT_SPAN && MovedX().id == "X"
  {
  }

  lemma XIsVisible(env: Env)
    ensures var s := OnlyX(BothStore(env));
            "X" in Visible(s) && Visible(s)["X"] == MovedX() && MovedX().lifecycle.Active? && MovedX().id == "X"
  {
    hide SampleMachine, Sample;
  }

  /** Y is created behind the walk through the table. */
  lemma ListingMisses(env: Env) returns (states: seq<Store>, actions: seq<Action>)
    ensures RunBut(env, states, actions, OfListing)
    ensures var s := states[|actions|];
            !RecoversAs(At(Recover(s.snaps, Retained(s)), "Y"), At(s.db.es.instances, "Y"))
  {
    hide Leads, SampleMachine, Sample, Exec, Recover;
    var done := ToBase(env, OfListing);
    var s := Base(env);
    BeginsListing(env, s, 1, true);
    Then(env, START, done, s, Begin(1, true, 0), OfListing);
    assert Listing(s, 1, true, s.db.es.instances.Keys) == OnlyX(s) by {
      assert s.db.es.instances.Keys == {"X"} && Live(s.db.es.instances) - {"X"} == map[];
    }
    var new_ := CreateCall("Y", 3, SEGMENT_SPAN + 2);
    CreateRuns(env, s.db, "Y", 3, SEGMENT_SPAN + 2);
    var db := Exec(env, s.db, new_).0;
    Calls(env, done + [Begin(1, true, 0)], OnlyX(s), new_, db, OfListing);
    var s1 := OnlyX(s).(db := db, top := SEGMENT_SPAN + 2);
    assert db.es.instances == map["X" := Made("X", SEGMENT_SPAN + 1), "Y" := OldY()];
    done := done + [Begin(1, true, 0)] + [Operate(new_)];
    XMovesBesideY(env, done, s1, OfListing);
    done := done + [Operate(EventCall("X", None, 4, 2 * SEGMENT_SPAN))];
    states, actions := MissesY(env, done);
  }

  /** The record of Y is written before the walk begins, and Y put into the table after. */
  lemma CreationMissed(env: Env) returns (states: seq<Store>, actions: seq<Action>)
    ensures RunBut(env, states, actions, OfListing)
    ensures var s := states[|actions|];
            !RecoversAs(At(Recover(s.snaps, Retained(s)), "Y"), At(s.db.es.instances, "Y"))
  {
    hide Leads, SampleMachine, Sample, Exec, Recover;
    var done := ToBase(env, OfListing);
    var s := Base(env);
    var new_ := CreateCall("Y", 3, SEGMENT_SPAN + 2);
    CreateRuns(env, s.db, "Y", 3, SEGMENT_SPAN + 2);
    var db := Exec(env, s.db, new_).0;
    assert db.es.instances == map["X" := Made("X", SEGMENT_SPAN + 1), "Y" := OldY()] && |db.log| > |s.db.log|;
    Then(env, START, done, s, Start(new_), OfListing);
    var s1 := s.(db := db, top := SEGMENT_SPAN + 2, entering := {"Y"});
    assert Next(env, s, Start(new_)) == s1 by { assert {} + {"Y"} == {"Y"}; }
    Then(env, START, done + [Start(new_)], s1, Begin(1, true, 0), OfListing);
    var s2 := Next(env, s1, Begin(1, true, 0));
    assert s2 == OnlyX(s1) by { assert Visible(s1).Keys == {"X"}; }
    Then(env, START, done + [Start(new_)] + [Begin(1, true, 0)], s2, Insert("Y"), OfListing);
    var s3 := Next(env, s2, Insert("Y"));
    assert s3.entering == {} by { assert {"Y"} - {"Y"} == {}; }
    done := done + [Start(new_)] + [Begin(1, true, 0)] + [Insert("Y")];
    XMovesBesideY(env, done, s3, OfListing);
    done := done + [Operate(EventCall("X", None, 4, 2 * SEGMENT_SPAN))];
    assert s3.(db := Both(env), top := 2 * SEGMENT_SPAN) == OnlyX(BothStore(env));
    states, actions := MissesY(env, done);
  }

  // ---------------------------------------------------------------------------------------------------------------
  // Two stores on one directory
  // ---------------------------------------------------------------------------------------------------------------

  /** After a compaction with one store, a request to another one writes an index without the snapshot of X. */
  lemma TwoStores(env: Env) returns (states: seq<Store>, actions: seq<Action>)
    ensures RunBut(env, states, actions, OfStores)
    ensures var s := states[|actions|];
            !RecoversAs(At(Recover(s.snaps, Retained(s)), "X"), At(s.db.es.instances, "X"))
  {
    hide Leads, SampleMachine, Sample, Exec, Recover;
    var done := ToCompacted(env, OfStores);
    var s := Compacted(Moved(env), 1, MovedX());
    var new_ := CreateCall("Y", 4, 3 * SEGMENT_SPAN);
    CreateRuns(env, s.db, "Y", 4, 3 * SEGMENT_SPAN);
    var db := Exec(env, s.db, new_).0;
    Calls(env, done, s, new_, db, OfStores);
    done := done + [Operate(new_)];
    var s1 := s.(db := db, top := 3 * SEGMENT_SPAN);
    assert db.es.instances == map["X" := MovedX(), "Y" := NewY()];
    assert Visible(s1) == db.es.instances;
    var s2 := SavesElsewhere(env, done, s1);
    actions := done + [Ask(2, 1, "Y")] + [Save(2, "Y", "t")];
    states := LeadsFrom(env, START, actions, s2, OfStores);
    Lost(s2, "X");
  }

  lemma SavesElsewhere(env: Env, done: seq<Action>, s: Store) returns (s': Store)
    requires Leads(env, START, done, s, OfStores) && "Y" in Visible(s) && Visible(s)["Y"] == NewY()
    requires s.jobs.Keys == {1} && s.jobs[1].target.Some? && IndexOf(s, 1) == map[]
    ensures Leads(env, START, done + [Ask(2, 1, "Y")] + [Save(2, "Y", "t")], s', OfStores)
    ensures s'.db == s.db && s'.floor == s.floor && s'.snaps.Keys == {"Y"}
  {
    hide Leads;
    Then(env, START, done, s, Ask(2, 1, "Y"), OfStores);
    var s1 := Next(env, s, Ask(2, 1, "Y"));
    assert !SomeMeasuring(s1);
    Then(env, START, done + [Ask(2, 1, "Y")], s1, Save(2, "Y", "t"), OfStores);
    s' := Next(env, s1, Save(2, "Y", "t"));
  }

  // ---------------------------------------------------------------------------------------------------------------
  // A request between listing and measuring
  // ---------------------------------------------------------------------------------------------------------------

  /** A compaction has listed and saved X; Y is created; X moves on, and a request saves it anew. */
  lemma RequestInBetween(env: Env) returns (states: seq<Store>, actions: seq<Action>)
    ensures RunBut(env, states, actions, OfRequests)
    ensures var s := states[|actions|];
            !RecoversAs(At(Recover(s.snaps, Retained(s)), "Y"), At(s.db.es.instances, "Y"))
  {
    hide Leads, SampleMachine, Sample, Exec, Recover;
    var s0 := Base(env);
    var done := ToHasX(env, OfRequests);
    done := Saves(env, done, s0, 1, Made("X", SEGMENT_SPAN + 1), OfRequests);
    var s := HasSaved(s0, 1, Made("X", SEGMENT_SPAN + 1));
    var new_ := CreateCall("Y", 3, SEGMENT_SPAN + 2);
    CreateRuns(env, s.db, "Y", 3, SEGMENT_SPAN + 2);
    var db := Exec(env, s.db, new_).0;
    Calls(env, done, s, new_, db, OfRequests);
    var s1 := s.(db := db, top := SEGMENT_SPAN + 2);
    assert db.es.instances == map["X" := Made("X", SEGMENT_SPAN + 1), "Y" := OldY()];
    done := done + [Operate(new_)];
    XMovesBesideY(env, done, s1, OfRequests);
    done := done + [Operate(EventCall("X", None, 4, 2 * SEGMENT_SPAN))];
    var s2 := s1.(db := Both(env), top := 2 * SEGMENT_SPAN);
    var s3 := SavesAgain(env, done, s2);
    var asked := done + [Ask(2, 0, "X")] + [Save(2, "X", "t")];
    actions := MeasuresAndDrops(env, asked, s3, 1, "X", OfRequests);
    var last := HasDropped(s3, 1, 2 * SEGMENT_SPAN);
    states := LeadsFrom(env, START, actions, last, OfRequests);
    YIsLost(env, last);
  }

  lemma SavesAgain(env: Env, done: seq<Action>, s: Store) returns (s': Store)
    requires Leads(env, START, done, s, OfRequests) && s.db == Both(env) && s.entering == {}
    requires s.jobs == map[1 := Job(false, true, 0, None, map[], {}, SEGMENT_SPAN + 1, None)]
    requires IndexOf(s, 0) == s.snaps && s.snaps.Keys == {"X"}
    ensures Leads(env, START, done + [Ask(2, 0, "X")] + [Save(2, "X", "t")], s', OfRequests)
    ensures s'.db == s.db && s'.floor == s.floor && IndexOf(s', 0) == s'.snaps
    ensures s'.snaps.Keys == {"X"} && s'.snaps["X"].walOffset == 2 * SEGMENT_SPAN
    ensures s'.jobs.Keys == {1, 2} && s'.jobs[1] == s.jobs[1] && s'.jobs[2].pending == map[]
  {
    hide Leads, SampleMachine, Sample;
    assert Visible(s) == s.db.es.instances;
    Then(env, START, done, s, Ask(2, 0, "X"), OfRequests);
    var s1 := Next(env, s, Ask(2, 0, "X"));
    Then(env, START, done + [Ask(2, 0, "X")], s1, Save(2, "X", "t"), OfRequests);
    s' := Next(env, s1, Save(2, "X", "t"));
    assert s'.jobs[2].pending == map[];
  }

  /** Only the last record is in a segment that stays. */
  lemma OneLeft(log: Log, floor: nat)
    requires log != [] && SegmentOf(log[|log| - 1].offset) >= floor
    requires forall k :: 0 <= k < |log| - 1 ==> SegmentOf(log[k].offset) < floor
    ensures FromSegment(log, floor) == [log[|log| - 1]]
  {
    var n := |log| - 1;
    assert log == log[..n] + [log[n]];
    NoneLeft(log[..n], floor);
    FromSegmentConcat(log[..n], [log[n]], floor);
    FromSegmentUniform([log[n]], SegmentOf(log[n].offset), floor);
  }

  lemma {:induction false} NoneLeft(log: Log, floor: nat)
    requires forall k :: 0 <= k < |log| ==> SegmentOf(log[k].offset) < floor
    ensures FromSegment(log, floor) == []
  {
    if log == [] {
    } else {
      NoneLeft(log[..|log| - 1], floor);
    }
  }
}
