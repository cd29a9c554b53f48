/**
 The recursive-descent guard parser. The functions say what each parser method returns and where it stops; the class
 `Parser` is the parser itself, moving `pos` in loops, proved against them.
 */
module GuardParser {
  import opened Common
  import opened Json
  import opened Guard

  /**
   Two errors stand for panics, which abort the caller: `PastEnd` for slicing past the end of the input, and
   `NotFinite` for a number literal that no JSON number can hold.
   */
  datatype GuardError = EmptyGuard | ExpectedParen | ExpectedCtx | EmptyField | UnterminatedString
                      | InvalidNumber | PastEnd | NotFinite

  datatype Parsed<T> = Done(value: T, pos: nat) | Bad(error: GuardError)

  predicate IsSpace(c: char) { 9 <= c as int <= 13 || c == ' ' }
  predicate IsDigit(c: char) { '0' <= c <= '9' }
  predicate IsFieldChar(c: char) {
    'a' <= c <= 'z' || 'A' <= c <= 'Z' || IsDigit(c) || c == '_' || c == '.'
  }

  /** The end of the run of characters satisfying `p` that starts at `pos`. */
  function Run(p: char -> bool, s: string, pos: nat): (end: nat)
    requires pos <= |s|
    ensures pos <= end <= |s|
    decreases |s| - pos
  {
    if pos < |s| && p(s[pos]) then Run(p, s, pos + 1) else pos
  }

  /** A run is exactly the characters that satisfy `p`. */
  lemma {:induction false} RunChars(p: char -> bool, s: string, pos: nat)
    requires pos <= |s|
    ensures forall i :: pos <= i < Run(p, s, pos) ==> p(s[i])
    ensures Run(p, s, pos) < |s| ==> !p(s[Run(p, s, pos)])
    decreases |s| - pos
  {
    if pos < |s| && p(s[pos]) {
      RunChars(p, s, pos + 1);
    }
  }

  function SkipSpace(s: string, pos: nat): (end: nat)
    requires pos <= |s|
    ensures pos <= end <= |s|
  {
    Run(IsSpace, s, pos)
  }

  predicate PeekChar(s: string, pos: nat, c: char) {
    pos < |s| && s[pos] == c
  }

  /** `peek_str`: the text at `pos` starts with `lit`. */
  predicate Peek(s: string, pos: nat, lit: string)
    requires pos <= |s|
  {
    pos + |lit| <= |s| && s[pos..pos + |lit|] == lit
  }

  function ParseField(s: string, pos: nat): (r: Parsed<string>)
    requires pos <= |s|
    ensures r.Done? ==> pos < r.pos <= |s|
  {
    if !Peek(s, pos, "ctx.") then Bad(ExpectedCtx)
    else
      var end := Run(IsFieldChar, s, pos + 4);
      if end == pos + 4 then Bad(EmptyField) else Done(s[pos + 4..end], end)
  }

  /** The parts of a numeral: sign, integer digits, and the digits behind the point. */
  datatype Numeral = Numeral(negative: bool, whole: string, point: bool, fraction: string)

  function DigitsValue(digits: string): nat {
    if digits == "" then 0
    else
      var c := digits[|digits| - 1];
      DigitsValue(digits[..|digits| - 1]) * 10 + (if IsDigit(c) then c as int - '0' as int else 0)
  }

  function NumeralValue(n: Numeral): Decimal {
    var digits: int := DigitsValue(n.whole + n.fraction);
    Normal(Decimal(if n.negative then -digits else digits, |n.fraction|))
  }

  function Pow2(k: nat): (p: nat)
    ensures p > 0
  {
    if k == 0 then 1 else 2 * Pow2(k - 1)
  }

  /**
   Numbers that an `f64` rounds to an infinity: halfway from its largest finite value to 2 to the 1024, and beyond.
   A comparison by order keeps such a bound; a literal for equality must become a JSON number and cannot.
   */
  predicate Overflows(n: Decimal) {
    var limit := (Pow2(1024) - Pow2(970)) as real;
    AsReal(n) >= limit || AsReal(n) <= -limit
  }

  /** A numeral needs a digit on at least one side of the point. */
  predicate HasDigits(n: Numeral) {
    n.whole != "" || n.fraction != ""
  }

  /** Reads the longest numeral shape at `pos`, digits or not. */
  function ScanNumeral(s: string, pos: nat): (r: (Numeral, nat))
    requires pos <= |s|
    ensures pos <= r.1 <= |s|
    ensures HasDigits(r.0) ==> pos < r.1
  {
    var negative := PeekChar(s, pos, '-');
    var p1 := if negative then pos + 1 else pos;
    var p2 := Run(IsDigit, s, p1);
    if PeekChar(s, p2, '.') then
      var p3 := Run(IsDigit, s, p2 + 1);
      (Numeral(negative, s[p1..p2], true, s[p2 + 1..p3]), p3)
    else
      (Numeral(negative, s[p1..p2], false, ""), p2)
  }

  function ParseNumber(s: string, pos: nat): (r: Parsed<Decimal>)
    requires pos <= |s|
    ensures r.Done? ==> pos < r.pos <= |s|
  {
    var (n, end) := ScanNumeral(s, SkipSpace(s, pos));
    if HasDigits(n) then Done(NumeralValue(n), end) else Bad(InvalidNumber)
  }

  /** The position of the closing quote; a backslash skips two characters, possibly past the end. */
  function ScanString(s: string, pos: nat): (r: Parsed<nat>)
    ensures r.Done? ==> r.value == r.pos && pos <= r.pos < |s|
    decreases |s| + 2 - pos
  {
    if pos > |s| then Bad(PastEnd)
    else if pos == |s| then Bad(UnterminatedString)
    else if s[pos] == '"' then Done(pos, pos)
    else if s[pos] == '\\' then ScanString(s, pos + 2)
    else ScanString(s, pos + 1)
  }

  function ParseValue(s: string, pos: nat): (r: Parsed<Value>)
    requires pos <= |s|
    ensures r.Done? ==> pos < r.pos <= |s|
  {
    var start := SkipSpace(s, pos);
    if Peek(s, start, "true") then Done(Bool(true), start + 4)
    else if Peek(s, start, "false") then Done(Bool(false), start + 5)
    else if Peek(s, start, "null") then Done(Null, start + 4)
    else if Peek(s, start, "\"") then
      match ScanString(s, start + 1)
      case Done(end, _) => Done(String(s[start + 1..end]), end + 1)
      case Bad(e) => Bad(e)
    else match ParseNumber(s, start)
      case Done(n, end) => if Overflows(n) then Bad(NotFinite) else Done(Number(n), end)
      case Bad(e) => Bad(e)
  }

  function WithValue(f: Value -> Expr, r: Parsed<Value>): Parsed<Expr> {
    match r case Done(v, p) => Done(f(v), p) case Bad(e) => Bad(e)
  }

  function WithNumber(f: Decimal -> Expr, r: Parsed<Decimal>): Parsed<Expr> {
    match r case Done(v, p) => Done(f(v), p) case Bad(e) => Bad(e)
  }

  /** What follows a field: a comparison, or nothing, which is a truthiness check. */
  function ParseOperator(s: string, field: string, p: nat): (r: Parsed<Expr>)
    requires p <= |s|
    ensures r.Done? ==> p <= r.pos <= |s|
  {
    if Peek(s, p, "==") then WithValue(v => Eq(field, v), ParseValue(s, SkipSpace(s, p + 2)))
    else if Peek(s, p, "!=") then WithValue(v => Ne(field, v), ParseValue(s, SkipSpace(s, p + 2)))
    else if Peek(s, p, ">=") then WithNumber(n => Ge(field, n), ParseNumber(s, SkipSpace(s, p + 2)))
    else if Peek(s, p, "<=") then WithNumber(n => Le(field, n), ParseNumber(s, SkipSpace(s, p + 2)))
    else if PeekChar(s, p, '>') then WithNumber(n => Gt(field, n), ParseNumber(s, SkipSpace(s, p + 1)))
    else if PeekChar(s, p, '<') then WithNumber(n => Lt(field, n), ParseNumber(s, SkipSpace(s, p + 1)))
    else Done(Truthy(field), p)
  }

  function ParseComparison(s: string, pos: nat): (r: Parsed<Expr>)
    requires pos <= |s|
    ensures r.Done? ==> pos < r.pos <= |s|
  {
    match ParseField(s, SkipSpace(s, pos))
    case Bad(e) => Bad(e)
    case Done(field, p) => ParseOperator(s, field, SkipSpace(s, p))
  }

  /**
   The mutually recursive core. Every call either moves forward or goes down a level, so parsing ends on every input,
   stays inside it, and each operand that parses consumes something.
   */
  function ParseOr(s: string, pos: nat): (r: Parsed<Expr>)
    requires pos <= |s|
    ensures r.Done? ==> pos < r.pos <= |s|
    decreases |s| - pos, 4
  {
    match ParseAnd(s, pos)
    case Bad(e) => Bad(e)
    case Done(left, p) => OrLoop(s, SkipSpace(s, p), left)
  }

  function OrLoop(s: string, pos: nat, left: Expr): (r: Parsed<Expr>)
    requires pos <= |s|
    ensures r.Done? ==> pos <= r.pos <= |s|
    decreases |s| - pos, 0
  {
    if !Peek(s, pos, "||") then Done(left, pos)
    else match ParseAnd(s, SkipSpace(s, pos + 2))
      case Bad(e) => Bad(e)
      case Done(right, p) => OrLoop(s, SkipSpace(s, p), Or(left, right))
  }

  function ParseAnd(s: string, pos: nat): (r: Parsed<Expr>)
    requires pos <= |s|
    ensures r.Done? ==> pos < r.pos <= |s|
    decreases |s| - pos, 3
  {
    match ParseUnary(s, pos)
    case Bad(e) => Bad(e)
    case Done(left, p) => AndLoop(s, SkipSpace(s, p), left)
  }

  function AndLoop(s: string, pos: nat, left: Expr): (r: Parsed<Expr>)
    requires pos <= |s|
    ensures r.Done? ==> pos <= r.pos <= |s|
    decreases |s| - pos, 0
  {
    if !Peek(s, pos, "&&") then Done(left, pos)
    else match ParseUnary(s, SkipSpace(s, pos + 2))
      case Bad(e) => Bad(e)
      case Done(right, p) => AndLoop(s, SkipSpace(s, p), And(left, right))
  }

  function ParseUnary(s: string, pos: nat): (r: Parsed<Expr>)
    requires pos <= |s|
    ensures r.Done? ==> pos < r.pos <= |s|
    decreases |s| - pos, 2
  {
    var start := SkipSpace(s, pos);
    if PeekChar(s, start, '!') then
      match ParseUnary(s, SkipSpace(s, start + 1))
      case Bad(e) => Bad(e)
      case Done(inner, p) => Done(Not(inner), p)
    else ParsePrimary(s, start)
  }

  function ParsePrimary(s: string, pos: nat): (r: Parsed<Expr>)
    requires pos <= |s|
    ensures r.Done? ==> pos < r.pos <= |s|
    decreases |s| - pos, 1
  {
    var start := SkipSpace(s, pos);
    if PeekChar(s, start, '(') then
      match ParseOr(s, start + 1)
      case Bad(e) => Bad(e)
      case Done(e, p) =>
        var close := SkipSpace(s, p);
        if PeekChar(s, close, ')') then Done(e, close + 1) else Bad(ExpectedParen)
    else ParseComparison(s, start)
  }

  /** The end of the text with trailing whitespace removed. */
  function TrimmedEnd(s: string): (end: nat)
    ensures end <= |s|
    ensures end > 0 ==> !IsSpace(s[end - 1])
    ensures forall i :: end <= i < |s| ==> IsSpace(s[i])
  {
    if s != "" && IsSpace(s[|s| - 1]) then TrimmedEnd(s[..|s| - 1]) else |s|
  }

  function Trim(s: string): string {
    var t := s[..TrimmedEnd(s)];
    t[SkipSpace(t, 0)..]
  }

  /** `GuardExpr::parse`: text behind a complete expression is ignored. */
  function Parse(input: string): Result<Expr, GuardError> {
    var s := Trim(input);
    if s == "" then Err(EmptyGuard)
    else match ParseOr(s, 0)
      case Done(e, _) => Ok(e)
      case Bad(e) => Err(e)
  }

  /** A method's answer against the function that specifies it; after an error the position no longer matters. */
  ghost predicate Answers<T>(r: Result<T, GuardError>, pos: nat, spec: Parsed<T>) {
    match spec
    case Done(v, p) => r == Ok(v) && pos == p
    case Bad(e) => r == Err(e)
  }

  class Parser {
    const input: string
    var pos: nat

    ghost predicate Valid()
      reads this
    {
      pos <= |input|
    }

    constructor (input: string)
      ensures this.input == input && pos == 0 && Valid()
    {
      this.input := input;
      pos := 0;
    }

    method SkipWhitespace()
      requires Valid()
      modifies this
      ensures Valid() && pos == SkipSpace(input, old(pos))
    {
      while pos < |input| && IsSpace(input[pos])
        invariant Valid() && SkipSpace(input, pos) == SkipSpace(input, old(pos))
        decreases |input| - pos
      {
        pos := pos + 1;
      }
    }

    method Field() returns (r: Result<string, GuardError>)
      requires Valid()
      modifies this
      ensures Answers(r, pos, ParseField(input, old(pos)))
    {
      var start := pos;
      if !Peek(input, pos, "ctx.") {
        return Err(ExpectedCtx);
      }
      pos := pos + 4;
      while pos < |input| && IsFieldChar(input[pos])
        invariant start + 4 <= pos <= |input|
        invariant Run(IsFieldChar, input, pos) == Run(IsFieldChar, input, start + 4)
        decreases |input| - pos
      {
        pos := pos + 1;
      }
      var field := input[start + 4..pos];
      if field == "" {
        return Err(EmptyField);
      }
      return Ok(field);
    }

    method Digits()
      requires Valid()
      modifies this
      ensures Valid() && pos == Run(IsDigit, input, old(pos))
    {
      while pos < |input| && IsDigit(input[pos])
        invariant Valid() && Run(IsDigit, input, pos) == Run(IsDigit, input, old(pos))
        decreases |input| - pos
      {
        pos := pos + 1;
      }
    }

    method Num() returns (r: Result<Decimal, GuardError>)
      requires Valid()
      modifies this
      ensures Answers(r, pos, ParseNumber(input, old(pos)))
    {
      hide Run, NumeralValue;
      SkipWhitespace();
      var negative := PeekChar(input, pos, '-');
      if negative {
        pos := pos + 1;
      }
      var start := pos;
      Digits();
      var whole := input[start..pos];
      var point := PeekChar(input, pos, '.');
      var fraction := "";
      if point {
        pos := pos + 1;
        start := pos;
        Digits();
        fraction := input[start..pos];
      }
      var n := Numeral(negative, whole, point, fraction);
      return if HasDigits(n) then Ok(NumeralValue(n)) else Err(InvalidNumber);
    }

    /** Scans to the closing quote; looking at the input behind its end is the panic. */
    method StringValue() returns (r: Result<Value, GuardError>)
      requires Valid() && PeekChar(input, pos, '"')
      modifies this
      ensures match ScanString(input, old(pos) + 1)
              case Done(end, _) => r == Ok(String(input[old(pos) + 1..end])) && pos == end + 1
              case Bad(e) => r == Err(e)
    {
      pos := pos + 1;
      var start := pos;
      while pos < |input|
        invariant start <= pos
        invariant ScanString(input, pos) == ScanString(input, start)
        decreases |input| + 2 - pos
      {
        if input[pos] == '"' {
          var text := input[start..pos];
          pos := pos + 1;
          return Ok(String(text));
        }
        pos := if input[pos] == '\\' then pos + 2 else pos + 1;
      }
      return if pos > |input| then Err(PastEnd) else Err(UnterminatedString);
    }

    method Val() returns (r: Result<Value, GuardError>)
      requires Valid()
      modifies this
      ensures Answers(r, pos, ParseValue(input, old(pos)))
    {
      SkipWhitespace();
      if Peek(input, pos, "true") {
        pos := pos + 4;
        return Ok(Bool(true));
      }
      if Peek(input, pos, "false") {
        pos := pos + 5;
        return Ok(Bool(false));
      }
      if Peek(input, pos, "null") {
        pos := pos + 4;
        return Ok(Null);
      }
      if Peek(input, pos, "\"") {
        assert input[pos..pos + 1] == "\"" ==> input[pos] == '"';
        r := StringValue();
        return;
      }
      var n := Num();
      match n
      case Ok(v) => return if Overflows(v) then Err(NotFinite) else Ok(Number(v));
      case Err(e) => return Err(e);
    }

    method Comparison() returns (r: Result<Expr, GuardError>)
      requires Valid()
      modifies this
      ensures Answers(r, pos, ParseComparison(input, old(pos)))
    {
      hide ParseField, ParseValue, ParseNumber, SkipSpace;
      SkipWhitespace();
      var field := Field();
      if field.Err? {
        return Err(field.error);
      }
      SkipWhitespace();
      if Peek(input, pos, "==") || Peek(input, pos, "!=") {
        var equal := Peek(input, pos, "==");
        pos := pos + 2;
        SkipWhitespace();
        var v := Val();
        match v
        case Err(e) => return Err(e);
        case Ok(v) => return Ok(if equal then Eq(field.value, v) else Ne(field.value, v));
      }
      if Peek(input, pos, ">=") || Peek(input, pos, "<=") {
        var ge := Peek(input, pos, ">=");
        pos := pos + 2;
        SkipWhitespace();
        var n := Num();
        match n
        case Err(e) => return Err(e);
        case Ok(n) => return Ok(if ge then Ge(field.value, n) else Le(field.value, n));
      }
      if PeekChar(input, pos, '>') || PeekChar(input, pos, '<') {
        var gt := PeekChar(input, pos, '>');
        pos := pos + 1;
        SkipWhitespace();
        var n := Num();
        match n
        case Err(e) => return Err(e);
        case Ok(n) => return Ok(if gt then Gt(field.value, n) else Lt(field.value, n));
      }
      return Ok(Truthy(field.value));
    }

    method Primary() returns (r: Result<Expr, GuardError>)
      requires Valid()
      modifies this
      ensures Answers(r, pos, ParsePrimary(input, old(pos)))
      decreases |input| - pos, 1
    {
      hide ParseComparison, ParseOr, SkipSpace;
      SkipWhitespace();
      if PeekChar(input, pos, '(') {
        pos := pos + 1;
        var e := Disjunction();
        if e.Err? {
          return e;
        }
        SkipWhitespace();
        if !PeekChar(input, pos, ')') {
          return Err(ExpectedParen);
        }
        pos := pos + 1;
        return e;
      }
      r := Comparison();
    }

    method Unary() returns (r: Result<Expr, GuardError>)
      requires Valid()
      modifies this
      ensures Answers(r, pos, ParseUnary(input, old(pos)))
      decreases |input| - pos, 2
    {
      hide ParsePrimary, SkipSpace;
      SkipWhitespace();
      if PeekChar(input, pos, '!') {
        pos := pos + 1;
        SkipWhitespace();
        var inner := Unary();
        match inner
        case Err(e) => return Err(e);
        case Ok(e) => return Ok(Not(e));
      }
      r := Primary();
    }

    /** `parse_and`: operands joined left to right. */
    method Conjunction() returns (r: Result<Expr, GuardError>)
      requires Valid()
      modifies this
      ensures Answers(r, pos, ParseAnd(input, old(pos)))
      decreases |input| - pos, 3
    {
      hide ParseUnary, SkipSpace;
      ghost var start := pos;
      var first := Unary();
      if first.Err? {
        return first;
      }
      var left := first.value;
      SkipWhitespace();
      while Peek(input, pos, "&&")
        invariant start < pos <= |input|
        invariant AndLoop(input, pos, left) == ParseAnd(input, start)
        decreases |input| - pos
      {
        pos := pos + 2;
        SkipWhitespace();
        var right := Unary();
        if right.Err? {
          return right;
        }
        left := And(left, right.value);
        SkipWhitespace();
      }
      return Ok(left);
    }

    /** `parse_or` and `parse_expr`. */
    method Disjunction() returns (r: Result<Expr, GuardError>)
      requires Valid()
      modifies this
      ensures Answers(r, pos, ParseOr(input, old(pos)))
      decreases |input| - pos, 4
    {
      hide ParseAnd, SkipSpace;
      ghost var start := pos;
      var first := Conjunction();
      if first.Err? {
        return first;
      }
      var left := first.value;
      SkipWhitespace();
      while Peek(input, pos, "||")
        invariant start < pos <= |input|
        invariant OrLoop(input, pos, left) == ParseOr(input, start)
        decreases |input| - pos
      {
        pos := pos + 2;
        SkipWhitespace();
        var right := Conjunction();
        if right.Err? {
          return right;
        }
        left := Or(left, right.value);
        SkipWhitespace();
      }
      return Ok(left);
    }
  }

  /** Parsing a guard text with the parser object. */
  method ParseGuard(text: string) returns (r: Result<Expr, GuardError>)
    ensures r == Parse(text)
  {
    var s := Trim(text);
    if s == "" {
      return Err(EmptyGuard);
    }
    var parser := new Parser(s);
    r := parser.Disjunction();
  }
}
