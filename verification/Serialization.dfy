/**
 Log entries can be serialized and read back: a code on byte strings that loses nothing, so that the assumption
 `Faithful` of the other modules is one that an environment can meet.
 */
module Serialization {
  import opened Common
  import opened Bytes
  import opened Json
  import opened Record
  import opened Entry
  import Definition

  // Each encoder puts a value in front of the bytes that follow it.

  function Put(b: Byte, rest: Buffer): Buffer { [b] + rest }

  lemma PutInjective(b: Byte, x: Buffer, c: Byte, y: Buffer)
    requires Put(b, x) == Put(c, y)
    ensures b == c && x == y
  {
    assert Put(b, x)[0] == b && Put(c, y)[0] == c;
    assert x == Put(b, x)[1..] && y == Put(c, y)[1..];
  }

  function PutNat(n: nat, rest: Buffer): Buffer {
    if n == 0 then Put(0, rest) else Put(1, PutNat(n - 1, rest))
  }

  lemma {:induction false} NatInjective(m: nat, x: Buffer, n: nat, y: Buffer)
    requires PutNat(m, x) == PutNat(n, y)
    ensures m == n && x == y
  {
    hide Put;
    var x' := if m == 0 then x else PutNat(m - 1, x);
    var y' := if n == 0 then y else PutNat(n - 1, y);
    PutInjective(if m == 0 then 0 else 1, x', if n == 0 then 0 else 1, y');
    if m > 0 {
      NatInjective(m - 1, x, n - 1, y);
    }
  }

  function PutInt(i: int, rest: Buffer): Buffer {
    if i >= 0 then Put(0, PutNat(i, rest)) else Put(1, PutNat(-i, rest))
  }

  lemma IntInjective(i: int, x: Buffer, j: int, y: Buffer)
    requires PutInt(i, x) == PutInt(j, y)
    ensures i == j && x == y
  {
    hide Put, PutNat;
    var m: nat, n: nat := if i >= 0 then i else -i, if j >= 0 then j else -j;
    PutInjective(if i >= 0 then 0 else 1, PutNat(m, x), if j >= 0 then 0 else 1, PutNat(n, y));
    NatInjective(m, x, n, y);
  }

  function PutString(s: string, rest: Buffer): Buffer {
    if s == "" then Put(0, rest) else Put(1, PutNat(s[0] as int, PutString(s[1..], rest)))
  }

  lemma {:induction false} StringInjective(s: string, x: Buffer, t: string, y: Buffer)
    requires PutString(s, x) == PutString(t, y)
    ensures s == t && x == y
  {
    hide Put, PutNat;
    var x' := if s == "" then x else PutNat(s[0] as int, PutString(s[1..], x));
    var y' := if t == "" then y else PutNat(t[0] as int, PutString(t[1..], y));
    PutInjective(if s == "" then 0 else 1, x', if t == "" then 0 else 1, y');
    if s == "" {
    } else {
      NatInjective(s[0] as int, PutString(s[1..], x), t[0] as int, PutString(t[1..], y));
      StringInjective(s[1..], x, t[1..], y);
      assert s == [s[0]] + s[1..] && t == [t[0]] + t[1..];
    }
  }

  function PutOption(o: Option<string>, rest: Buffer): Buffer {
    match o
    case None => Put(0, rest)
    case Some(s) => Put(1, PutString(s, rest))
  }

  lemma OptionInjective(o: Option<string>, x: Buffer, p: Option<string>, y: Buffer)
    requires PutOption(o, x) == PutOption(p, y)
    ensures o == p && x == y
  {
    hide Put, PutString;
    PutInjective(if o.None? then 0 else 1, if o.None? then x else PutString(o.value, x),
                 if p.None? then 0 else 1, if p.None? then y else PutString(p.value, y));
    if o.Some? {
      StringInjective(o.value, x, p.value, y);
    }
  }

  /** A value; the fields of an object come in some order. */
  ghost function PutValue(v: Value, rest: Buffer): Buffer
    decreases v, 2
  {
    match v
    case Null => Put(0, rest)
    case Bool(b) => Put(1, Put(if b then 1 else 0, rest))
    case Number(n) => Put(2, PutInt(n.digits, PutNat(n.scale, rest)))
    case String(s) => Put(3, PutString(s, rest))
    case Array(items) => Put(4, PutItems(v, items, rest))
    case Object(fields) => Put(5, PutFields(v, fields, rest))
  }

  ghost function PutItems(v: Value, items: seq<Value>, rest: Buffer): Buffer
    requires forall i :: 0 <= i < |items| ==> items[i] < v
    decreases v, 1, |items|
  {
    if items == [] then Put(0, rest) else Put(1, PutValue(items[0], PutItems(v, items[1..], rest)))
  }

  ghost function Pick(fields: map<string, Value>): (k: string)
    requires fields != map[]
    ensures k in fields
  {
    var k :| k in fields; k
  }

  ghost function PutFields(v: Value, fields: map<string, Value>, rest: Buffer): Buffer
    requires forall k :: k in fields ==> fields[k] < v
    decreases v, 1, |fields|
  {
    if fields == map[] then Put(0, rest)
    else
      var k := Pick(fields);
      Put(1, PutString(k, PutValue(fields[k], PutFields(v, fields - {k}, rest))))
  }

  function Tag(v: Value): Byte {
    match v
    case Null => 0
    case Bool(_) => 1
    case Number(_) => 2
    case String(_) => 3
    case Array(_) => 4
    case Object(_) => 5
  }

  ghost function Behind(v: Value, rest: Buffer): Buffer {
    match v
    case Null => rest
    case Bool(b) => Put(if b then 1 else 0, rest)
    case Number(n) => PutInt(n.digits, PutNat(n.scale, rest))
    case String(s) => PutString(s, rest)
    case Array(items) => PutItems(v, items, rest)
    case Object(fields) => PutFields(v, fields, rest)
  }

  lemma {:induction false} ValueInjective(v: Value, x: Buffer, w: Value, y: Buffer)
    requires PutValue(v, x) == PutValue(w, y)
    ensures v == w && x == y
    decreases v, 2
  {
    hide Put, PutInt, PutNat, PutString, PutItems, PutFields;
    PutInjective(Tag(v), Behind(v, x), Tag(w), Behind(w, y));
    match v
    case Null =>
    case Bool(b) => PutInjective(if b then 1 else 0, x, if w.b then 1 else 0, y);
    case Number(n) =>
      IntInjective(n.digits, PutNat(n.scale, x), w.n.digits, PutNat(w.n.scale, y));
      NatInjective(n.scale, x, w.n.scale, y);
    case String(s) => StringInjective(s, x, w.s, y);
    case Array(items) => ItemsInjective(v, items, x, w, w.items, y);
    case Object(fields) => FieldsInjective(v, fields, x, w, w.fields, y);
  }

  lemma {:induction false} ItemsInjective(v: Value, items: seq<Value>, x: Buffer, w: Value, others: seq<Value>, y: Buffer)
    requires forall i :: 0 <= i < |items| ==> items[i] < v
    requires forall i :: 0 <= i < |others| ==> others[i] < w
    requires PutItems(v, items, x) == PutItems(w, others, y)
    ensures items == others && x == y
    decreases v, 1, |items|
  {
    hide Put, PutValue;
    var x' := if items == [] then x else PutValue(items[0], PutItems(v, items[1..], x));
    var y' := if others == [] then y else PutValue(others[0], PutItems(w, others[1..], y));
    PutInjective(if items == [] then 0 else 1, x', if others == [] then 0 else 1, y');
    if items == [] {
    } else {
      ValueInjective(items[0], PutItems(v, items[1..], x), others[0], PutItems(w, others[1..], y));
      ItemsInjective(v, items[1..], x, w, others[1..], y);
      assert items == [items[0]] + items[1..] && others == [others[0]] + others[1..];
    }
  }

  lemma {:induction false} FieldsInjective(v: Value, fields: map<string, Value>, x: Buffer,
                                           w: Value, others: map<string, Value>, y: Buffer)
    requires forall k :: k in fields ==> fields[k] < v
    requires forall k :: k in others ==> others[k] < w
    requires PutFields(v, fields, x) == PutFields(w, others, y)
    ensures fields == others && x == y
    decreases v, 1, |fields|
  {
    hide Put, PutValue, PutString, Pick;
    PutInjective(if fields == map[] then 0 else 1, BehindFields(v, fields, x),
                 if others == map[] then 0 else 1, BehindFields(w, others, y));
    if fields == map[] {
    } else {
      var k, l := Pick(fields), Pick(others);
      var x', y' := PutFields(v, fields - {k}, x), PutFields(w, others - {l}, y);
      StringInjective(k, PutValue(fields[k], x'), l, PutValue(others[l], y'));
      ValueInjective(fields[k], x', others[l], y');
      FieldsInjective(v, fields - {k}, x, w, others - {l}, y);
      assert fields == (fields - {k})[k := fields[k]] && others == (others - {k})[k := others[k]];
    }
  }

  ghost function BehindFields(v: Value, fields: map<string, Value>, rest: Buffer): Buffer
    requires forall k :: k in fields ==> fields[k] < v
  {
    if fields == map[] then rest
    else var k := Pick(fields); PutString(k, PutValue(fields[k], PutFields(v, fields - {k}, rest)))
  }

  ghost function EntryBytes(e: WalEntry): Buffer {
    match e
    case PutMachine(machine, version, hash, definition) =>
      Put(0, PutString(machine, PutNat(version, PutString(hash, PutValue(definition, [])))))
    case CreateInstance(id, machine, version, state, ctx, key) =>
      Put(1, PutString(id, PutString(machine, PutNat(version, PutString(state, PutValue(ctx, PutOption(key, [])))))))
    case ApplyEvent(id, event, from, to, payload, ctx, eventId, key) =>
      Put(2, PutString(id, PutString(event, PutString(from, PutString(to,
        PutValue(payload, PutValue(ctx, PutOption(eventId, PutOption(key, [])))))))))
    case DeleteInstance(id, key) => Put(3, PutString(id, PutOption(key, [])))
    case SnapshotMark(id, snapshotId, state, ctx) =>
      Put(4, PutString(id, PutString(snapshotId, PutString(state, PutValue(ctx, [])))))
    case Checkpoint(timestamp) => Put(5, PutInt(timestamp, []))
  }

  function EntryTag(e: WalEntry): Byte {
    match e
    case PutMachine(_, _, _, _) => 0
    case CreateInstance(_, _, _, _, _, _) => 1
    case ApplyEvent(_, _, _, _, _, _, _, _) => 2
    case DeleteInstance(_, _) => 3
    case SnapshotMark(_, _, _, _) => 4
    case Checkpoint(_) => 5
  }

  lemma TagFirst(e: WalEntry)
    ensures EntryBytes(e) == Put(EntryTag(e), EntryBytes(e)[1..])
  {
    hide PutString, PutValue, PutOption, PutNat, PutInt;
  }

  lemma SameTag(d: WalEntry, e: WalEntry)
    requires EntryBytes(d) == EntryBytes(e)
    ensures EntryTag(d) == EntryTag(e)
  {
    hide EntryBytes;
    TagFirst(d);
    TagFirst(e);
    PutInjective(EntryTag(d), EntryBytes(d)[1..], EntryTag(e), EntryBytes(e)[1..]);
  }

  lemma PutMachineInjective(d: WalEntry, e: WalEntry)
    requires d.PutMachine? && e.PutMachine? && EntryBytes(d) == EntryBytes(e)
    ensures d == e
  {
    hide Put, PutString, PutValue, PutNat;
    var d4, e4 := PutValue(d.definition, []), PutValue(e.definition, []);
    var d3, e3 := PutString(d.definitionHash, d4), PutString(e.definitionHash, e4);
    var d2, e2 := PutNat(d.version, d3), PutNat(e.version, e3);
    PutInjective(0, PutString(d.machine, d2), 0, PutString(e.machine, e2));
    StringInjective(d.machine, d2, e.machine, e2);
    NatInjective(d.version, d3, e.version, e3);
    StringInjective(d.definitionHash, d4, e.definitionHash, e4);
    ValueInjective(d.definition, [], e.definition, []);
  }

  lemma CreateInjective(d: WalEntry, e: WalEntry)
    requires d.CreateInstance? && e.CreateInstance? && EntryBytes(d) == EntryBytes(e)
    ensures d == e
  {
    hide Put, PutString, PutValue, PutNat, PutOption;
    var d5, e5 := PutOption(d.idempotencyKey, []), PutOption(e.idempotencyKey, []);
    var d4, e4 := PutValue(d.initialCtx, d5), PutValue(e.initialCtx, e5);
    var d3, e3 := PutString(d.initialState, d4), PutString(e.initialState, e4);
    var d2, e2 := PutNat(d.version, d3), PutNat(e.version, e3);
    var d1, e1 := PutString(d.machine, d2), PutString(e.machine, e2);
    PutInjective(1, PutString(d.instanceId, d1), 1, PutString(e.instanceId, e1));
    StringInjective(d.instanceId, d1, e.instanceId, e1);
    StringInjective(d.machine, d2, e.machine, e2);
    NatInjective(d.version, d3, e.version, e3);
    StringInjective(d.initialState, d4, e.initialState, e4);
    ValueInjective(d.initialCtx, d5, e.initialCtx, e5);
    OptionInjective(d.idempotencyKey, [], e.idempotencyKey, []);
  }

  lemma ApplyInjective(d: WalEntry, e: WalEntry)
    requires d.ApplyEvent? && e.ApplyEvent? && EntryBytes(d) == EntryBytes(e)
    ensures d == e
  {
    hide Put, PutString, PutValue, PutOption;
    var d7, e7 := PutOption(d.idempotencyKey, []), PutOption(e.idempotencyKey, []);
    var d6, e6 := PutOption(d.eventId, d7), PutOption(e.eventId, e7);
    var d5, e5 := PutValue(d.ctx, d6), PutValue(e.ctx, e6);
    var d4, e4 := PutValue(d.payload, d5), PutValue(e.payload, e5);
    var d3, e3 := PutString(d.toState, d4), PutString(e.toState, e4);
    var d2, e2 := PutString(d.fromState, d3), PutString(e.fromState, e3);
    var d1, e1 := PutString(d.event, d2), PutString(e.event, e2);
    PutInjective(2, PutString(d.instanceId, d1), 2, PutString(e.instanceId, e1));
    StringInjective(d.instanceId, d1, e.instanceId, e1);
    StringInjective(d.event, d2, e.event, e2);
    StringInjective(d.fromState, d3, e.fromState, e3);
    StringInjective(d.toState, d4, e.toState, e4);
    ValueInjective(d.payload, d5, e.payload, e5);
    ValueInjective(d.ctx, d6, e.ctx, e6);
    OptionInjective(d.eventId, d7, e.eventId, e7);
    OptionInjective(d.idempotencyKey, [], e.idempotencyKey, []);
  }

  lemma SnapshotInjective(d: WalEntry, e: WalEntry)
    requires d.SnapshotMark? && e.SnapshotMark? && EntryBytes(d) == EntryBytes(e)
    ensures d == e
  {
    hide Put, PutString, PutValue;
    var d3, e3 := PutValue(d.ctx, []), PutValue(e.ctx, []);
    var d2, e2 := PutString(d.state, d3), PutString(e.state, e3);
    var d1, e1 := PutString(d.snapshotId, d2), PutString(e.snapshotId, e2);
    PutInjective(4, PutString(d.instanceId, d1), 4, PutString(e.instanceId, e1));
    StringInjective(d.instanceId, d1, e.instanceId, e1);
    StringInjective(d.snapshotId, d2, e.snapshotId, e2);
    StringInjective(d.state, d3, e.state, e3);
    ValueInjective(d.ctx, [], e.ctx, []);
  }

  /** Different entries have different bytes. */
  lemma EntryInjective(d: WalEntry, e: WalEntry)
    requires EntryBytes(d) == EntryBytes(e)
    ensures d == e
  {
    SameTag(d, e);
    hide Put, PutString, PutOption, PutInt;
    match d
    case PutMachine(_, _, _, _) => PutMachineInjective(d, e);
    case CreateInstance(_, _, _, _, _, _) => CreateInjective(d, e);
    case ApplyEvent(_, _, _, _, _, _, _, _) => ApplyInjective(d, e);
    case DeleteInstance(id, key) =>
      PutInjective(3, PutString(id, PutOption(key, [])), 3, PutString(e.instanceId, PutOption(e.idempotencyKey, [])));
      StringInjective(id, PutOption(key, []), e.instanceId, PutOption(e.idempotencyKey, []));
      OptionInjective(key, [], e.idempotencyKey, []);
    case SnapshotMark(_, _, _, _) => SnapshotInjective(d, e);
    case Checkpoint(t) =>
      PutInjective(5, PutInt(t, []), 5, PutInt(e.timestamp, []));
      IntInjective(t, [], e.timestamp, []);
  }

  ghost function ReadEntry(b: Buffer): Option<WalEntry> {
    if e :| EntryBytes(e) == b then Some(e) else None
  }

  /** Whatever the CRC and the definition checksum are, there is a faithful serialization. */
  lemma FaithfulExists(crc: Crc, checksum: Definition.Raw -> string)
    ensures exists env :: Faithful(env) && env.crc == crc && env.checksum == checksum
  {
    hide EntryBytes;
    ghost var env := Env(crc, e => EntryBytes(e), b => ReadEntry(b), checksum);
    forall e ensures env.deserialize(env.serialize(e)) == Some(e) {
      var read := ReadEntry(EntryBytes(e));
      assert exists d :: EntryBytes(d) == EntryBytes(e);
      EntryInjective(read.value, e);
    }
    assert Faithful(env);
  }
}
