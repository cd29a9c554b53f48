/** JSON values as `serde_json` holds them. Every number it can hold, integer or float, is a finite decimal. */
module Json {
  import opened Common

  /** `digits` divided by ten to the `scale`. */
  datatype Decimal = Decimal(digits: int, scale: nat)

  datatype Value =
    | Null
    | Bool(b: bool)
    | Number(n: Decimal)
    | String(s: string)
    | Array(items: seq<Value>)
    | Object(fields: map<string, Value>)

  function Pow10(k: nat): (p: nat)
    ensures p > 0
  {
    if k == 0 then 1 else 10 * Pow10(k - 1)
  }

  function AsReal(d: Decimal): real { d.digits as real / Pow10(d.scale) as real }

  /** The same number without needless zeros behind the point. */
  function Normal(d: Decimal): Decimal
    decreases d.scale
  {
    if d.scale > 0 && d.digits % 10 == 0 then Normal(Decimal(d.digits / 10, d.scale - 1)) else d
  }

  lemma {:induction false} NormalKeeps(d: Decimal)
    ensures AsReal(Normal(d)) == AsReal(d)
    decreases d.scale
  {
    if d.scale > 0 && d.digits % 10 == 0 {
      var shorter := Decimal(d.digits / 10, d.scale - 1);
      NormalKeeps(shorter);
      assert d.digits == 10 * shorter.digits && Pow10(d.scale) == 10 * Pow10(shorter.scale);
      Cancel(shorter.digits as real, Pow10(shorter.scale) as real);
    } else {
      assert Normal(d) == d;
    }
  }

  lemma Cancel(x: real, p: real)
    requires p > 0.0
    ensures (10.0 * x) / (10.0 * p) == x / p
  {
    var q := x / p;
    assert q * p == x;
    assert q * (10.0 * p) == 10.0 * x;
  }

  /** `merge_ctx`: payload fields win, and anything that is not a pair of objects leaves the context alone. */
  function Merge(ctx: Value, payload: Value): Value {
    if ctx.Object? && payload.Object? then Object(ctx.fields + payload.fields) else ctx
  }

  function Field(v: Value, key: string): Option<Value> {
    if v.Object? && key in v.fields then Some(v.fields[key]) else None
  }
}
