/** The JSON of machine definitions: exactly which values read as which definition. */
module DefinitionJson {
  import opened Common
  import opened Json
  import opened Definition

  ghost predicate IsStrings(items: seq<Value>, texts: seq<string>) {
    |items| == |texts| && forall i :: 0 <= i < |items| ==> items[i] == String(texts[i])
  }

  /** An optional field is left out, null, or there. */
  ghost predicate Optionally(fields: map<string, Value>, key: string, v: Option<Value>) {
    match v
    case None => key !in fields || fields[key] == Null
    case Some(there) => key in fields && fields[key] == there && there != Null
  }

  /** One source as a string, or any number of them as a list; other fields do not matter. */
  ghost predicate SpellsTransition(v: Value, t: Transition) {
    && v.Object? && {"from", "event", "to"} <= v.fields.Keys
    && v.fields["event"] == String(t.event) && v.fields["to"] == String(t.to)
    && (match v.fields["from"]
        case String(s) => t.from == [s]
        case Array(items) => IsStrings(items, t.from)
        case _ => false)
    && Optionally(v.fields, "guard", match t.guard case None => None case Some(g) => Some(String(g)))
  }

  ghost predicate SpellsRaw(v: Value, raw: Raw) {
    && v.Object? && {"states", "initial", "transitions"} <= v.fields.Keys
    && v.fields["states"].Array? && IsStrings(v.fields["states"].items, raw.states)
    && v.fields["initial"] == String(raw.initial)
    && Optionally(v.fields, "meta", raw.meta)
    && v.fields["transitions"].Array?
    && var ts := v.fields["transitions"].items;
       && |ts| == |raw.transitions|
       && forall i :: 0 <= i < |ts| ==> SpellsTransition(ts[i], raw.transitions[i])
  }

  lemma {:induction false} StringsRead(items: seq<Value>, texts: seq<string>)
    ensures Strings(items) == Some(texts) <==> IsStrings(items, texts)
  {
    if items == [] {
    } else {
      if texts != [] {
        StringsRead(items[1..], texts[1..]);
        assert texts == [texts[0]] + texts[1..];
        assert IsStrings(items, texts) ==> forall i :: 0 <= i < |items| - 1 ==> items[1..][i] == items[i + 1];
        if IsStrings(items[1..], texts[1..]) && items[0] == String(texts[0]) {
          forall i | 0 <= i < |items| ensures items[i] == String(texts[i]) {
            assert i > 0 ==> items[i] == items[1..][i - 1] && texts[i] == texts[1..][i - 1];
          }
        }
        if Strings(items) == Some(texts) {
          assert Strings(items[1..]) == Some(texts[1..]) && items[0] == String(texts[0]);
        }
      }
    }
  }

  /** A value reads as a transition if and only if it spells it. */
  lemma TransitionReads(v: Value, t: Transition)
    ensures TransitionOfJson(v) == Some(t) <==> SpellsTransition(v, t)
  {
    hide Strings, IsStrings;
    var from := Field(v, "from");
    if from.Some? && from.value.Array? {
      StringsRead(from.value.items, t.from);
    }
  }

  lemma {:induction false} TransitionsRead(items: seq<Value>, ts: seq<Transition>)
    ensures TransitionsOfJson(items) == Some(ts) <==>
              |items| == |ts| && forall i :: 0 <= i < |items| ==> SpellsTransition(items[i], ts[i])
  {
    hide TransitionOfJson, SpellsTransition;
    if items == [] {
    } else if ts != [] {
      TransitionReads(items[0], ts[0]);
      TransitionsRead(items[1..], ts[1..]);
      assert ts == [ts[0]] + ts[1..];
      assert forall i :: 1 <= i < |items| ==> items[i] == items[1..][i - 1];
      assert forall i :: 1 <= i < |ts| ==> ts[i] == ts[1..][i - 1];
    }
  }

  lemma MetaReads(v: Value, meta: Option<Value>)
    requires v.Object?
    ensures MetaOfJson(v) == meta <==> Optionally(v.fields, "meta", meta)
  {
  }

  /** A value reads as a definition if and only if it spells it, whatever other fields it has. */
  lemma DefinitionReads(v: Value, raw: Raw)
    ensures RawOfJson(v) == Some(raw) <==> SpellsRaw(v, raw)
  {
    hide Strings, IsStrings, TransitionsOfJson, SpellsTransition, MetaOfJson, Optionally;
    if v.Object? && {"states", "initial", "transitions"} <= v.fields.Keys {
      MetaReads(v, raw.meta);
      if v.fields["states"].Array? && v.fields["transitions"].Array? {
        StringsRead(v.fields["states"].items, raw.states);
        TransitionsRead(v.fields["transitions"].items, raw.transitions);
      }
    }
  }

  // ---------------------------------------------------------------------------------------------------------------
  // Writing a definition
  // ---------------------------------------------------------------------------------------------------------------

  function StringList(texts: seq<string>): Value {
    Array(seq(|texts|, i requires 0 <= i < |texts| => String(texts[i])))
  }

  function JsonOfTransition(t: Transition): Value {
    var fields := map["from" := StringList(t.from), "event" := String(t.event), "to" := String(t.to)];
    Object(if t.guard.Some? then fields["guard" := String(t.guard.value)] else fields)
  }

  function JsonOfRaw(raw: Raw): Value {
    var ts := seq(|raw.transitions|, i requires 0 <= i < |raw.transitions| => JsonOfTransition(raw.transitions[i]));
    var fields := map["states" := StringList(raw.states), "initial" := String(raw.initial), "transitions" := Array(ts)];
    Object(if raw.meta.Some? then fields["meta" := raw.meta.value] else fields)
  }

  /** A definition written as JSON reads back if and only if its metadata is not an explicit null. */
  lemma JsonReadsBack(raw: Raw)
    ensures RawOfJson(JsonOfRaw(raw)) == Some(raw) <==> raw.meta != Some(Null)
  {
    var v := JsonOfRaw(raw);
    DefinitionReads(v, raw);
    forall i | 0 <= i < |raw.transitions|
      ensures SpellsTransition(v.fields["transitions"].items[i], raw.transitions[i])
    {
      TransitionSpelled(raw.transitions[i]);
    }
    hide RawOfJson, SpellsTransition;
  }

  lemma TransitionSpelled(t: Transition)
    ensures SpellsTransition(JsonOfTransition(t), t)
  {
  }
}
