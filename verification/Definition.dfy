/** Machine definitions: validation, and the transition index built from the raw list. */
module Definition {
  import opened Common
  import opened Json
  import opened Guard
  import opened GuardParser

  datatype Transition = Transition(from: seq<string>, event: string, to: string, guard: Option<string>)

  datatype Raw = Raw(states: seq<string>, initial: string, transitions: seq<Transition>, meta: Option<Value>)

  datatype Key = Key(state: string, event: string)
  datatype Target = Target(to: string, guard: Option<Expr>)
  type Index = map<Key, Target>

  datatype DefinitionError = UnknownInitial | UnknownTarget | UnknownSource | DuplicateTransition
                           | InvalidGuard(error: GuardError) | InvalidJson

  datatype Machine = Machine(
    name: string, version: nat, states: set<string>, initial: string, transitions: Index, raw: Raw, checksum: string)

  function StateSet(raw: Raw): set<string> { set s | s in raw.states }

  function ParsedGuard(t: Transition): Result<Option<Expr>, GuardError> {
    match t.guard
    case None => Ok(None)
    case Some(text) => (match Parse(text) case Ok(e) => Ok(Some(e)) case Err(e) => Err(e))
  }

  /** The inner loop: one index entry per source state. */
  function AddSources(states: set<string>, from: seq<string>, event: string, target: Target, index: Index)
    : Result<Index, DefinitionError>
  {
    if from == [] then Ok(index)
    else if from[0] !in states then Err(UnknownSource)
    else if Key(from[0], event) in index then Err(DuplicateTransition)
    else AddSources(states, from[1..], event, target, index[Key(from[0], event) := target])
  }

  /** The outer loop: target, guard, then the sources of each transition. */
  function AddTransitions(states: set<string>, ts: seq<Transition>, index: Index): Result<Index, DefinitionError> {
    if ts == [] then Ok(index)
    else if ts[0].to !in states then Err(UnknownTarget)
    else match ParsedGuard(ts[0])
      case Err(e) => Err(InvalidGuard(e))
      case Ok(guard) =>
        match AddSources(states, ts[0].from, ts[0].event, Target(ts[0].to, guard), index)
        case Err(e) => Err(e)
        case Ok(index') => AddTransitions(states, ts[1..], index')
  }

  /** `from_raw`, the checksum being a library hash of the serialized definition. */
  function FromRaw(checksum: Raw -> string, name: string, version: nat, raw: Raw): Result<Machine, DefinitionError> {
    if raw.initial !in StateSet(raw) then Err(UnknownInitial)
    else match AddTransitions(StateSet(raw), raw.transitions, map[])
      case Err(e) => Err(e)
      case Ok(index) => Ok(Machine(name, version, StateSet(raw), raw.initial, index, raw, checksum(raw)))
  }

  function GetTransition(m: Machine, state: string, event: string): Option<Target> {
    if Key(state, event) in m.transitions then Some(m.transitions[Key(state, event)]) else None
  }

  /** `from_raw` as the source writes it: nested loops over the transitions and their sources, with early exits. */
  method BuildMachine(checksum: Raw -> string, name: string, version: nat, raw: Raw)
    returns (r: Result<Machine, DefinitionError>)
    ensures r == FromRaw(checksum, name, version, raw)
  {
    hide Parse;
    var states := StateSet(raw);
    if raw.initial !in states {
      return Err(UnknownInitial);
    }
    var index: Index := map[];
    for i := 0 to |raw.transitions|
      invariant AddTransitions(states, raw.transitions[i..], index) == AddTransitions(states, raw.transitions, map[])
    {
      var t := raw.transitions[i];
      assert raw.transitions[i..][0] == t && raw.transitions[i..][1..] == raw.transitions[i + 1..];
      if t.to !in states {
        return Err(UnknownTarget);
      }
      var guard := ParsedGuard(t);
      if guard.Err? {
        return Err(InvalidGuard(guard.error));
      }
      var target := Target(t.to, guard.value);
      ghost var before := index;
      for j := 0 to |t.from|
        invariant AddSources(states, t.from[j..], t.event, target, index)
               == AddSources(states, t.from, t.event, target, before)
      {
        var from := t.from[j];
        assert t.from[j..][0] == from && t.from[j..][1..] == t.from[j + 1..];
        if from !in states {
          return Err(UnknownSource);
        }
        if Key(from, t.event) in index {
          return Err(DuplicateTransition);
        }
        index := index[Key(from, t.event) := target];
      }
    }
    return Ok(Machine(name, version, states, raw.initial, index, raw, checksum(raw)));
  }

  // ---------------------------------------------------------------------------------------------------------------
  // What a definition means, without the index
  // ---------------------------------------------------------------------------------------------------------------

  /** The (source, event) pairs of the raw list, multi-source transitions expanded. */
  function SourceKeys(from: seq<string>, event: string): (ks: seq<Key>)
    ensures |ks| == |from| && forall i :: 0 <= i < |from| ==> ks[i] == Key(from[i], event)
  {
    if from == [] then [] else [Key(from[0], event)] + SourceKeys(from[1..], event)
  }

  function Keys(ts: seq<Transition>): seq<Key> {
    if ts == [] then [] else SourceKeys(ts[0].from, ts[0].event) + Keys(ts[1..])
  }

  ghost predicate Distinct(ks: seq<Key>) {
    forall i, j :: 0 <= i < j < |ks| ==> ks[i] != ks[j]
  }

  ghost predicate GoodTransition(states: set<string>, t: Transition) {
    t.to in states && ParsedGuard(t).Ok? && Declared(t.from, states)
  }

  ghost predicate GoodTransitions(states: set<string>, ts: seq<Transition>) {
    forall i :: 0 <= i < |ts| ==> GoodTransition(states, ts[i])
  }

  /** A valid definition: everything named is declared, guards parse, and no (source, event) pair repeats. */
  ghost predicate ValidRaw(raw: Raw) {
    raw.initial in StateSet(raw) && GoodTransitions(StateSet(raw), raw.transitions) && Distinct(Keys(raw.transitions))
  }

  /** The first transition in list order that leaves `state` on `event`. */
  function LinearSearch(ts: seq<Transition>, state: string, event: string): Option<Target> {
    if ts == [] then None
    else if state in ts[0].from && ts[0].event == event && ParsedGuard(ts[0]).Ok? then
      Some(Target(ts[0].to, ParsedGuard(ts[0]).value))
    else LinearSearch(ts[1..], state, event)
  }

  ghost predicate Unused(ks: seq<Key>, index: Index) {
    forall i :: 0 <= i < |ks| ==> ks[i] !in index
  }

  ghost predicate Declared(from: seq<string>, states: set<string>) {
    forall i :: 0 <= i < |from| ==> from[i] in states
  }

  lemma DeclaredCons(from: seq<string>, states: set<string>)
    requires from != []
    ensures Declared(from, states) <==> from[0] in states && Declared(from[1..], states)
  {
    assert forall i :: 0 < i < |from| ==> from[i] == from[1..][i - 1];
  }

  /** What the inner loop accepts, and what it adds. */
  ghost predicate AddsSources(
    states: set<string>, from: seq<string>, event: string, target: Target, index: Index)
  {
    var ks, r := SourceKeys(from, event), AddSources(states, from, event, target, index);
    && (r.Ok? <==> Declared(from, states) && Distinct(ks) && Unused(ks, index))
    && (r.Ok? ==> r.value == index + Spread(ks, target))
  }

  lemma {:induction false} AddSourcesMeans(
    states: set<string>, from: seq<string>, event: string, target: Target, index: Index)
    ensures AddsSources(states, from, event, target, index)
  {
    if from == [] {
      assert index + Spread([], target) == index;
    } else if from[0] !in states {
    } else if Key(from[0], event) in index {
      assert SourceKeys(from, event)[0] == Key(from[0], event);
    } else {
      AddSourcesMeans(states, from[1..], event, target, index[Key(from[0], event) := target]);
      AddSourcesStep(states, from, event, target, index);
    }
  }

  lemma AddSourcesStep(states: set<string>, from: seq<string>, event: string, target: Target, index: Index)
    requires from != [] && from[0] in states && Key(from[0], event) !in index
    requires AddsSources(states, from[1..], event, target, index[Key(from[0], event) := target])
    ensures AddsSources(states, from, event, target, index)
  {
    hide Distinct, Unused, Declared, Spread;
    var k, rest := Key(from[0], event), SourceKeys(from[1..], event);
    assert SourceKeys(from, event) == [k] + rest;
    DeclaredCons(from, states);
    DistinctCons(k, rest, index, target);
    SpreadCons(k, rest, index, target);
  }

  /** One target for all the keys. */
  function Spread(ks: seq<Key>, target: Target): Index { map k | k in ks :: target }

  lemma SpreadCons(k: Key, rest: seq<Key>, index: Index, target: Target)
    ensures index[k := target] + Spread(rest, target) == index + Spread([k] + rest, target)
  {
  }

  lemma DistinctCons(k: Key, rest: seq<Key>, index: Index, target: Target)
    requires k !in index
    ensures Distinct([k] + rest) && Unused([k] + rest, index) <==> Distinct(rest) && Unused(rest, index[k := target])
  {
    var ks := [k] + rest;
    if Distinct(ks) && Unused(ks, index) {
      forall i | 0 <= i < |rest| ensures rest[i] !in index[k := target] {
        assert ks[0] != ks[i + 1] && ks[i + 1] == rest[i];
      }
      forall i, j | 0 <= i < j < |rest| ensures rest[i] != rest[j] {
        assert ks[i + 1] != ks[j + 1];
      }
    }
  }

  lemma DistinctAppend(a: seq<Key>, b: seq<Key>, index: Index, target: Target)
    ensures Distinct(a + b) && Unused(a + b, index) <==>
              && Distinct(a) && Unused(a, index) && Distinct(b) && Unused(b, index + Spread(a, target))
  {
    var ks := a + b;
    if Distinct(ks) && Unused(ks, index) {
      forall i | 0 <= i < |a| ensures a[i] !in index { assert ks[i] == a[i]; }
      forall i, j | 0 <= i < j < |a| ensures a[i] != a[j] { assert ks[i] != ks[j]; }
      forall i, j | 0 <= i < j < |b| ensures b[i] != b[j] { assert ks[|a| + i] != ks[|a| + j]; }
      forall j | 0 <= j < |b| ensures b[j] !in index + Spread(a, target) {
        assert ks[|a| + j] == b[j];
        forall i | 0 <= i < |a| ensures a[i] != b[j] { assert ks[i] != ks[|a| + j]; }
      }
    }
  }

  /** The index holds `index` with the linear search over `ts` behind it. */
  ghost predicate Extends(result: Index, index: Index, ts: seq<Transition>) {
    && (forall k :: k in result <==> k in index || k in Keys(ts))
    && (forall k :: k in index ==> k in result && result[k] == index[k])
    && (forall k :: k in result && k !in index ==> LinearSearch(ts, k.state, k.event) == Some(result[k]))
  }

  lemma {:induction false} AddTransitionsMeans(states: set<string>, ts: seq<Transition>, index: Index)
    ensures AddTransitions(states, ts, index).Ok? <==>
              GoodTransitions(states, ts) && Distinct(Keys(ts)) && Unused(Keys(ts), index)
    ensures AddTransitions(states, ts, index).Ok? ==> Extends(AddTransitions(states, ts, index).value, index, ts)
  {
    hide Parse, Extends;
    if ts == [] {
      ExtendsNothing(index);
    } else {
      var t := ts[0];
      if !GoodTransition(states, t) {
        if t.to in states && ParsedGuard(t).Ok? {
          AddSourcesFails(states, t, index);
        }
      } else {
        var target := Target(t.to, ParsedGuard(t).value);
        var ks := SourceKeys(t.from, t.event);
        AddSourcesMeans(states, t.from, t.event, target, index);
        DistinctAppend(ks, Keys(ts[1..]), index, target);
        var index' := index + Spread(ks, target);
        AddTransitionsMeans(states, ts[1..], index');
        assert GoodTransitions(states, ts) <==> GoodTransitions(states, ts[1..]) by {
          assert forall i :: 0 < i < |ts| ==> ts[i] == ts[1..][i - 1];
        }
        if AddTransitions(states, ts, index).Ok? {
          ExtendsCons(AddTransitions(states, ts, index).value, index, ts, target);
        }
      }
    }
  }

  lemma ExtendsNothing(index: Index)
    ensures Extends(index, index, [])
  {
  }

  lemma AddSourcesFails(states: set<string>, t: Transition, index: Index)
    requires !GoodTransition(states, t) && t.to in states && ParsedGuard(t).Ok?
    ensures AddSources(states, t.from, t.event, Target(t.to, ParsedGuard(t).value), index).Err?
  {
    hide Parse;
    AddSourcesMeans(states, t.from, t.event, Target(t.to, ParsedGuard(t).value), index);
  }

  lemma ExtendsCons(result: Index, index: Index, ts: seq<Transition>, target: Target)
    requires ts != [] && ParsedGuard(ts[0]).Ok? && target == Target(ts[0].to, ParsedGuard(ts[0]).value)
    requires Unused(SourceKeys(ts[0].from, ts[0].event), index)
    requires Extends(result, index + Spread(SourceKeys(ts[0].from, ts[0].event), target), ts[1..])
    ensures Extends(result, index, ts)
  {
    hide ParsedGuard, SourceKeys, LinearSearch, Keys;
    var ks := SourceKeys(ts[0].from, ts[0].event);
    KeysCons(ts);
    forall k | k in result && k !in index ensures LinearSearch(ts, k.state, k.event) == Some(result[k]) {
      SourceKeyIn(ts[0], k);
      SearchCons(ts, k.state, k.event);
    }
  }

  lemma KeysCons(ts: seq<Transition>)
    requires ts != []
    ensures forall k :: k in Keys(ts) <==> k in SourceKeys(ts[0].from, ts[0].event) || k in Keys(ts[1..])
  {
    hide SourceKeys;
  }

  lemma SearchCons(ts: seq<Transition>, state: string, event: string)
    requires ts != [] && ParsedGuard(ts[0]).Ok?
    ensures LinearSearch(ts, state, event)
         == if state in ts[0].from && ts[0].event == event then Some(Target(ts[0].to, ParsedGuard(ts[0]).value))
            else LinearSearch(ts[1..], state, event)
  {
    hide ParsedGuard;
  }

  lemma SourceKeyIn(t: Transition, k: Key)
    ensures k in SourceKeys(t.from, t.event) <==> k.state in t.from && t.event == k.event
  {
    if k.state in t.from && t.event == k.event {
      var i :| 0 <= i < |t.from| && t.from[i] == k.state;
      assert SourceKeys(t.from, t.event)[i] == k;
    }
  }

  lemma {:induction false} SearchMissesNonKeys(ts: seq<Transition>, state: string, event: string)
    requires Key(state, event) !in Keys(ts)
    ensures LinearSearch(ts, state, event).None?
  {
    hide ParsedGuard;
    if ts == [] {
    } else {
      SourceKeyIn(ts[0], Key(state, event));
      SearchMissesNonKeys(ts[1..], state, event);
    }
  }

  /** A definition is accepted exactly when it is valid. */
  lemma FromRawAccepts(checksum: Raw -> string, name: string, version: nat, raw: Raw)
    ensures FromRaw(checksum, name, version, raw).Ok? <==> ValidRaw(raw)
  {
    hide AddTransitions;
    AddTransitionsMeans(StateSet(raw), raw.transitions, map[]);
  }

  /** In an accepted definition, looking up the index is searching the raw list. */
  lemma IndexIsLinearSearch(checksum: Raw -> string, name: string, version: nat, raw: Raw, state: string, event: string)
    requires FromRaw(checksum, name, version, raw).Ok?
    ensures GetTransition(FromRaw(checksum, name, version, raw).value, state, event)
         == LinearSearch(raw.transitions, state, event)
  {
    hide AddTransitions, LinearSearch;
    AddTransitionsMeans(StateSet(raw), raw.transitions, map[]);
    if Key(state, event) !in Keys(raw.transitions) {
      SearchMissesNonKeys(raw.transitions, state, event);
    }
  }

  /** Every transition of an accepted machine leads between declared states. */
  ghost predicate Closed(m: Machine) {
    && m.initial in m.states
    && forall k :: k in m.transitions ==> k.state in m.states && m.transitions[k].to in m.states
  }

  lemma {:induction false} SearchFindsGood(states: set<string>, ts: seq<Transition>, state: string, event: string)
    requires GoodTransitions(states, ts) && LinearSearch(ts, state, event).Some?
    ensures state in states && LinearSearch(ts, state, event).value.to in states
  {
    hide ParsedGuard;
    var t := ts[0];
    assert GoodTransition(states, t);
    if !(state in t.from && t.event == event) {
      SearchFindsGood(states, ts[1..], state, event);
    }
  }

  lemma FromRawClosed(checksum: Raw -> string, name: string, version: nat, raw: Raw)
    requires FromRaw(checksum, name, version, raw).Ok?
    ensures Closed(FromRaw(checksum, name, version, raw).value)
  {
    hide AddTransitions, LinearSearch;
    AddTransitionsMeans(StateSet(raw), raw.transitions, map[]);
    var m := FromRaw(checksum, name, version, raw).value;
    forall k | k in m.transitions ensures k.state in m.states && m.transitions[k].to in m.states {
      SearchFindsGood(m.states, raw.transitions, k.state, k.event);
    }
  }

  // ---------------------------------------------------------------------------------------------------------------
  // JSON form
  // ---------------------------------------------------------------------------------------------------------------

  function Strings(items: seq<Value>): Option<seq<string>> {
    if items == [] then Some([])
    else if !items[0].String? then None
    else match Strings(items[1..])
      case None => None
      case Some(rest) => Some([items[0].s] + rest)
  }

  /** One source state or a list of them. */
  function FromStates(v: Value): Option<seq<string>> {
    match v
    case String(s) => Some([s])
    case Array(items) => Strings(items)
    case _ => None
  }

  function TransitionOfJson(v: Value): Option<Transition> {
    var from := match Field(v, "from") case None => None case Some(f) => FromStates(f);
    var event, to, guard := Field(v, "event"), Field(v, "to"), Field(v, "guard");
    if from.None? || event.None? || to.None? || !event.value.String? || !to.value.String? then None
    else match guard
      case None => Some(Transition(from.value, event.value.s, to.value.s, None))
      case Some(Null) => Some(Transition(from.value, event.value.s, to.value.s, None))
      case Some(String(g)) => Some(Transition(from.value, event.value.s, to.value.s, Some(g)))
      case _ => None
  }

  function TransitionsOfJson(items: seq<Value>): Option<seq<Transition>> {
    if items == [] then Some([])
    else match (TransitionOfJson(items[0]), TransitionsOfJson(items[1..]))
      case (Some(t), Some(rest)) => Some([t] + rest)
      case _ => None
  }

  /** Optional metadata: it takes part in the checksum only. */
  function MetaOfJson(v: Value): Option<Value> {
    match Field(v, "meta")
    case Some(Null) => None
    case meta => meta
  }

  function RawOfJson(v: Value): Option<Raw> {
    match (Field(v, "states"), Field(v, "initial"), Field(v, "transitions"))
    case (Some(Array(states)), Some(String(initial)), Some(Array(ts))) =>
      (match (Strings(states), TransitionsOfJson(ts))
       case (Some(states), Some(ts)) => Some(Raw(states, initial, ts, MetaOfJson(v)))
       case _ => None)
    case _ => None
  }

  function FromJson(checksum: Raw -> string, name: string, version: nat, json: Value): Result<Machine, DefinitionError> {
    match RawOfJson(json)
    case None => Err(InvalidJson)
    case Some(raw) => FromRaw(checksum, name, version, raw)
  }

  lemma FromJsonClosed(checksum: Raw -> string, name: string, version: nat, json: Value)
    requires FromJson(checksum, name, version, json).Ok?
    ensures Closed(FromJson(checksum, name, version, json).value)
    ensures FromJson(checksum, name, version, json).value.name == name
    ensures FromJson(checksum, name, version, json).value.version == version
  {
    hide FromRaw;
    var raw := RawOfJson(json).value;
    FromRawClosed(checksum, name, version, raw);
    FromRawNames(checksum, name, version, raw);
  }

  lemma FromRawNames(checksum: Raw -> string, name: string, version: nat, raw: Raw)
    requires FromRaw(checksum, name, version, raw).Ok?
    ensures FromRaw(checksum, name, version, raw).value.name == name
    ensures FromRaw(checksum, name, version, raw).value.version == version
  {
  }
}
