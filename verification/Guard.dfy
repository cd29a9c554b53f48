/** Guard expressions: the syntax tree and its evaluation against an instance context. */
module Guard {
  import opened Common
  import opened Json

  datatype Expr =
    | Truthy(field: string)
    | Falsy(field: string)
    | Eq(field: string, expected: Value)
    | Ne(field: string, expected: Value)
    | Gt(field: string, bound: Decimal)
    | Ge(field: string, bound: Decimal)
    | Lt(field: string, bound: Decimal)
    | Le(field: string, bound: Decimal)
    | And(left: Expr, right: Expr)
    | Or(left: Expr, right: Expr)
    | Not(inner: Expr)

  /** Numbers closer than this are equal: `f64::EPSILON`, 2 to the power of minus 52. */
  const EPSILON: real := 1.0 / 4503599627370496.0

  /** `split('.')`: always at least one part. */
  function SplitDots(field: string): (parts: seq<string>)
    ensures |parts| >= 1
  {
    if field == "" then [""]
    else
      var rest := SplitDots(field[1..]);
      if field[0] == '.' then [""] + rest else [[field[0]] + rest[0]] + rest[1..]
  }

  function JoinDots(parts: seq<string>): string
    requires |parts| >= 1
  {
    if |parts| == 1 then parts[0] else parts[0] + "." + JoinDots(parts[1..])
  }

  /** Splitting loses nothing and leaves no dot in any part. */
  lemma {:induction false} SplitJoins(field: string)
    ensures JoinDots(SplitDots(field)) == field
    ensures forall i :: 0 <= i < |SplitDots(field)| ==> '.' !in SplitDots(field)[i]
  {
    if field == "" {
    } else {
      SplitJoins(field[1..]);
      var parts, rest := SplitDots(field), SplitDots(field[1..]);
      assert parts[1..] == if field[0] == '.' then rest else rest[1..];
      assert field == [field[0]] + field[1..];
    }
  }

  /** Follows a path from a value; a step into a missing field or a non-object yields null. */
  function Walk(v: Value, parts: seq<string>): Value
    decreases |parts|
  {
    if parts == [] then v
    else match v
      case Object(fields) => Walk(if parts[0] in fields then fields[parts[0]] else Null, parts[1..])
      case _ => Null
  }

  function GetField(ctx: Value, field: string): Value {
    Walk(ctx, SplitDots(field))
  }

  /** The lookup loop of `get_field`. */
  method LookUp(ctx: Value, field: string) returns (v: Value)
    ensures v == GetField(ctx, field)
  {
    var parts := SplitDots(field);
    var current := ctx;
    for i := 0 to |parts|
      invariant Walk(current, parts[i..]) == GetField(ctx, field)
    {
      if !current.Object? {
        return Null;
      }
      assert parts[i..][1..] == parts[i + 1..];
      current := if parts[i] in current.fields then current.fields[parts[i]] else Null;
    }
    return current;
  }

  predicate IsTruthy(v: Value) {
    match v
    case Null => false
    case Bool(b) => b
    case Number(n) => AsReal(n) != 0.0
    case String(s) => s != ""
    case Array(items) => items != []
    case Object(fields) => fields != map[]
  }

  predicate ValuesEqual(a: Value, b: Value) {
    match (a, b)
    case (Null, Null) => true
    case (Bool(x), Bool(y)) => x == y
    case (Number(x), Number(y)) => -EPSILON < AsReal(x) - AsReal(y) < EPSILON
    case (String(x), String(y)) => x == y
    case _ => false
  }

  predicate Evaluate(e: Expr, ctx: Value) {
    match e
    case Truthy(field) => IsTruthy(GetField(ctx, field))
    case Falsy(field) => !IsTruthy(GetField(ctx, field))
    case Eq(field, v) => ValuesEqual(GetField(ctx, field), v)
    case Ne(field, v) => !ValuesEqual(GetField(ctx, field), v)
    case Gt(field, n) => GetField(ctx, field).Number? && AsReal(GetField(ctx, field).n) > AsReal(n)
    case Ge(field, n) => GetField(ctx, field).Number? && AsReal(GetField(ctx, field).n) >= AsReal(n)
    case Lt(field, n) => GetField(ctx, field).Number? && AsReal(GetField(ctx, field).n) < AsReal(n)
    case Le(field, n) => GetField(ctx, field).Number? && AsReal(GetField(ctx, field).n) <= AsReal(n)
    case And(l, r) => Evaluate(l, ctx) && Evaluate(r, ctx)
    case Or(l, r) => Evaluate(l, ctx) || Evaluate(r, ctx)
    case Not(inner) => !Evaluate(inner, ctx)
  }

  /** `evaluate_opt`: no guard always holds. */
  predicate Holds(guard: Option<Expr>, ctx: Value) {
    match guard
    case None => true
    case Some(e) => Evaluate(e, ctx)
  }
}
