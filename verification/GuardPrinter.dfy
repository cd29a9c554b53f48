/**
 Guard texts. A concrete syntax tree fixes every choice a text makes: whitespace between tokens, numeral spelling,
 string escapes and parentheses. `Text` writes it out, `Erase` forgets the choices. Parsing undoes writing, and
 whatever parses was such a text.
 */
module GuardPrinter {
  import opened Common
  import opened Json
  import opened Guard
  import opened GuardParser

  datatype Literal = NullLit | BoolLit(b: bool) | StringLit(raw: string) | NumberLit(n: Numeral)

  datatype Comparator = EqOp | NeOp | GeOp | LeOp | GtOp | LtOp

  datatype Cst =
    | Check(field: string)
    | Compare(field: string, before: string, op: Comparator, after: string, lit: Literal)
    | Negate(gap: string, inner: Cst)
    | Both(left: Cst, before: string, after: string, right: Cst)
    | Either(left: Cst, before: string, after: string, right: Cst)
    | Paren(open: string, inner: Cst, close: string)

  function SignText(n: Numeral): string { if n.negative then "-" else "" }

  function PointText(n: Numeral): string { if n.point then "." + n.fraction else "" }

  function NumeralText(n: Numeral): string { SignText(n) + (n.whole + PointText(n)) }

  function LiteralText(lit: Literal): string {
    match lit
    case NullLit => "null"
    case BoolLit(b) => if b then "true" else "false"
    case StringLit(raw) => "\"" + raw + "\""
    case NumberLit(n) => NumeralText(n)
  }

  function OpText(op: Comparator): string {
    match op
    case EqOp => "=="
    case NeOp => "!="
    case GeOp => ">="
    case LeOp => "<="
    case GtOp => ">"
    case LtOp => "<"
  }

  function Text(c: Cst): string {
    match c
    case Check(field) => "ctx." + field
    case Compare(field, before, op, after, lit) => "ctx." + field + before + OpText(op) + after + LiteralText(lit)
    case Negate(gap, inner) => "!" + gap + Text(inner)
    case Both(l, before, after, r) => Text(l) + before + "&&" + after + Text(r)
    case Either(l, before, after, r) => Text(l) + before + "||" + after + Text(r)
    case Paren(open, inner, close) => "(" + open + Text(inner) + close + ")"
  }

  function LiteralValue(lit: Literal): Value {
    match lit
    case NullLit => Null
    case BoolLit(b) => Bool(b)
    case StringLit(raw) => String(raw)
    case NumberLit(n) => Number(NumeralValue(n))
  }

  function EraseCompare(field: string, op: Comparator, lit: Literal): Expr {
    var n := if lit.NumberLit? then NumeralValue(lit.n) else Decimal(0, 0);
    match op
    case EqOp => Eq(field, LiteralValue(lit))
    case NeOp => Ne(field, LiteralValue(lit))
    case GeOp => Ge(field, n)
    case LeOp => Le(field, n)
    case GtOp => Gt(field, n)
    case LtOp => Lt(field, n)
  }

  function Erase(c: Cst): Expr {
    match c
    case Check(field) => Truthy(field)
    case Compare(field, _, op, _, lit) => EraseCompare(field, op, lit)
    case Negate(_, inner) => Not(Erase(inner))
    case Both(l, _, _, r) => And(Erase(l), Erase(r))
    case Either(l, _, _, r) => Or(Erase(l), Erase(r))
    case Paren(_, inner, _) => Erase(inner)
  }

  ghost predicate All(p: char -> bool, s: string) {
    forall i :: 0 <= i < |s| ==> p(s[i])
  }

  /** The guard language is defined on ASCII text: the parser counts bytes. */
  ghost predicate Ascii(s: string) { forall i :: 0 <= i < |s| ==> s[i] as int < 128 }

  ghost predicate Spaces(s: string) { All(IsSpace, s) }

  /** Text between quotes: every backslash escapes a following character, and no quote stands unescaped. */
  predicate RawString(raw: string) {
    raw == "" || (if raw[0] == '\\' then |raw| >= 2 && RawString(raw[2..]) else raw[0] != '"' && RawString(raw[1..]))
  }

  ghost predicate GoodNumeral(n: Numeral) {
    HasDigits(n) && All(IsDigit, n.whole) && All(IsDigit, n.fraction) && (!n.point ==> n.fraction == "")
  }

  ghost predicate GoodLiteral(lit: Literal) {
    match lit
    case StringLit(raw) => RawString(raw)
    case NumberLit(n) => GoodNumeral(n)
    case _ => true
  }

  /** A literal that a JSON value can hold. */
  predicate Finite(lit: Literal) { lit.NumberLit? ==> !Overflows(NumeralValue(lit.n)) }

  /** Equality takes any literal that is finite, order any number. */
  predicate GoodOperand(op: Comparator, lit: Literal) {
    if op.EqOp? || op.NeOp? then Finite(lit) else lit.NumberLit?
  }

  ghost predicate GoodField(field: string) { field != "" && All(IsFieldChar, field) }

  /** Binding strength: `||` below `&&` below everything else. */
  function Level(c: Cst): nat {
    match c
    case Either(_, _, _, _) => 0
    case Both(_, _, _, _) => 1
    case _ => 2
  }

  /** Operands bind at least as tightly as their position demands, association being to the left. */
  ghost predicate Good(c: Cst) {
    match c
    case Check(field) => GoodField(field)
    case Compare(field, before, op, after, lit) =>
      && GoodField(field) && Spaces(before) && Spaces(after) && GoodLiteral(lit)
      && GoodOperand(op, lit)
    case Negate(gap, inner) => Spaces(gap) && Good(inner) && Level(inner) >= 2
    case Both(l, before, after, r) =>
      Spaces(before) && Spaces(after) && Good(l) && Good(r) && Level(l) >= 1 && Level(r) >= 2
    case Either(l, before, after, r) =>
      Spaces(before) && Spaces(after) && Good(l) && Good(r) && Level(r) >= 1
    case Paren(open, inner, close) => Spaces(open) && Spaces(close) && Good(inner)
  }

  // ---------------------------------------------------------------------------------------------------------------
  // Text at a position
  // ---------------------------------------------------------------------------------------------------------------

  /** The text `t` stands at `pos`. */
  predicate Stands(s: string, pos: nat, t: string) {
    pos + |t| <= |s| && s[pos..pos + |t|] == t
  }

  lemma StandsSplit(s: string, pos: nat, a: string, b: string)
    ensures Stands(s, pos, a + b) <==> Stands(s, pos, a) && Stands(s, pos + |a|, b)
  {
    if pos + |a| + |b| <= |s| {
      assert s[pos..pos + |a| + |b|] == s[pos..pos + |a|] + s[pos + |a|..pos + |a| + |b|];
      if s[pos..pos + |a| + |b|] == a + b {
        assert a == (a + b)[..|a|] == s[pos..pos + |a|];
        assert b == (a + b)[|a|..] == s[pos + |a|..pos + |a| + |b|];
      }
    }
  }

  lemma StandsChar(s: string, pos: nat, t: string, i: nat)
    requires Stands(s, pos, t) && i < |t|
    ensures pos + i < |s| && s[pos + i] == t[i]
  {
    assert s[pos..pos + |t|][i] == t[i];
  }

  /** A run stops where its characters stop. */
  lemma {:induction false} RunStands(p: char -> bool, s: string, pos: nat, t: string)
    requires Stands(s, pos, t) && All(p, t)
    requires pos + |t| < |s| ==> !p(s[pos + |t|])
    ensures Run(p, s, pos) == pos + |t|
  {
    var end := Run(p, s, pos);
    RunChars(p, s, pos);
    if end < pos + |t| {
      StandsChar(s, pos, t, end - pos);
    }
  }

  lemma SkipTwice(s: string, pos: nat)
    requires pos <= |s|
    ensures SkipSpace(s, SkipSpace(s, pos)) == SkipSpace(s, pos)
  {
    RunChars(IsSpace, s, pos);
  }

  /** Skipping from inside a stretch of whitespace ends where skipping from its start does. */
  lemma {:induction false} SkipFromWithin(s: string, pos: nat, mid: nat)
    requires pos <= mid <= |s| && forall i :: pos <= i < mid ==> IsSpace(s[i])
    ensures SkipSpace(s, pos) == SkipSpace(s, mid)
    decreases mid - pos
  {
    if pos < mid {
      SkipFromWithin(s, pos + 1, mid);
    }
  }

  lemma NoSkip(s: string, pos: nat)
    requires pos <= |s| && (pos < |s| ==> !IsSpace(s[pos]))
    ensures SkipSpace(s, pos) == pos
  {
  }

  lemma SkipStands(s: string, pos: nat, gap: string)
    requires Stands(s, pos, gap) && Spaces(gap)
    requires pos + |gap| < |s| ==> !IsSpace(s[pos + |gap|])
    ensures SkipSpace(s, pos) == pos + |gap|
  {
    RunStands(IsSpace, s, pos, gap);
  }

  /** Every expression text starts with `c`, `!` or `(`, so never with whitespace. */
  lemma {:induction false} TextStarts(c: Cst)
    ensures Text(c) != "" && Text(c)[0] in {'c', '!', '('}
  {
    match c
    case Both(l, _, _, _) => TextStarts(l);
    case Either(l, _, _, _) => TextStarts(l);
    case _ =>
  }

  // ---------------------------------------------------------------------------------------------------------------
  // Parsing undoes writing
  // ---------------------------------------------------------------------------------------------------------------

  /** What may follow an operand: behind whitespace, the end, a closing parenthesis or an operator. */
  ghost predicate Follow(s: string, end: nat) {
    && end <= |s|
    && var q := SkipSpace(s, end);
       q == |s| || s[q] == ')' || Peek(s, q, "&&") || Peek(s, q, "||")
  }

  lemma FollowChar(s: string, end: nat)
    requires Follow(s, end)
    ensures end < |s| ==> !IsFieldChar(s[end])
    ensures var q := SkipSpace(s, end); q < |s| ==> s[q] in {')', '&', '|'}
  {
    var q := SkipSpace(s, end);
    RunChars(IsSpace, s, end);
    if Peek(s, q, "&&") {
      StandsChar(s, q, "&&", 0);
    } else if Peek(s, q, "||") {
      StandsChar(s, q, "||", 0);
    }
  }

  /** Not at the start of a field character run. */
  ghost predicate Breaks(s: string, end: nat) {
    end < |s| ==> !IsFieldChar(s[end])
  }

  lemma {:induction false} ScanRaw(s: string, pos: nat, raw: string)
    requires RawString(raw) && Stands(s, pos, raw) && PeekChar(s, pos + |raw|, '"')
    ensures ScanString(s, pos) == Done(pos + |raw|, pos + |raw|)
    decreases |raw|
  {
    if raw == "" {
    } else {
      StandsChar(s, pos, raw, 0);
      var k := if raw[0] == '\\' then 2 else 1;
      assert raw == raw[..k] + raw[k..];
      StandsSplit(s, pos, raw[..k], raw[k..]);
      ScanRaw(s, pos + k, raw[k..]);
    }
  }

  /** The pieces of a numeral's text, each where it stands. */
  lemma NumeralPieces(s: string, pos: nat, n: Numeral)
    requires GoodNumeral(n) && Stands(s, pos, NumeralText(n))
    ensures var p1 := if n.negative then pos + 1 else pos;
            var p2 := p1 + |n.whole|;
            && (n.negative ==> PeekChar(s, pos, '-')) && Stands(s, p1, n.whole)
            && (n.point ==> PeekChar(s, p2, '.') && Stands(s, p2 + 1, n.fraction))
            && pos + |NumeralText(n)| == if n.point then p2 + 1 + |n.fraction| else p2
  {
    hide Stands, DigitsValue;
    var sign, point := SignText(n), PointText(n);
    var p1 := pos + |sign|;
    StandsSplit(s, pos, sign, n.whole + point);
    StandsSplit(s, p1, n.whole, point);
    if n.negative {
      StandsChar(s, pos, "-", 0);
    }
    if n.point {
      StandsSplit(s, p1 + |n.whole|, ".", n.fraction);
      StandsChar(s, p1 + |n.whole|, ".", 0);
    }
  }

  lemma ScanNumeralStands(s: string, pos: nat, n: Numeral)
    requires GoodNumeral(n) && Stands(s, pos, NumeralText(n)) && Breaks(s, pos + |NumeralText(n)|)
    ensures ScanNumeral(s, pos) == (n, pos + |NumeralText(n)|)
    ensures s[pos] == '-' || s[pos] == '.' || IsDigit(s[pos])
  {
    hide NumeralText, Run;
    NumeralPieces(s, pos, n);
    var p1 := if n.negative then pos + 1 else pos;
    var p2 := p1 + |n.whole|;
    if n.whole != "" {
      StandsChar(s, p1, n.whole, 0);
    }
    assert PeekChar(s, pos, '-') == n.negative;
    RunStands(IsDigit, s, p1, n.whole);
    assert s[p1..p2] == n.whole;
    if n.point {
      RunStands(IsDigit, s, p2 + 1, n.fraction);
      assert s[p2 + 1..p2 + 1 + |n.fraction|] == n.fraction;
    }
  }

  lemma ParseNumberStands(s: string, pos: nat, n: Numeral)
    requires GoodNumeral(n) && Stands(s, pos, NumeralText(n)) && Breaks(s, pos + |NumeralText(n)|)
    ensures ParseNumber(s, pos) == Done(NumeralValue(n), pos + |NumeralText(n)|)
    ensures !IsSpace(s[pos]) && s[pos] !in {'t', 'f', 'n', '"', '='}
  {
    ScanNumeralStands(s, pos, n);
    assert SkipSpace(s, pos) == pos;
  }

  /** Keywords are told apart by their first letter. */
  lemma PeekFirst(s: string, pos: nat, lit: string)
    requires pos <= |s| && lit != "" && Peek(s, pos, lit)
    ensures PeekChar(s, pos, lit[0])
  {
    StandsChar(s, pos, lit, 0);
  }

  /** Which keyword or quote a value starts with is decided by its first character. */
  lemma PeekKeywords(s: string, pos: nat)
    requires pos < |s|
    ensures Peek(s, pos, "true") ==> s[pos] == 't'
    ensures Peek(s, pos, "false") ==> s[pos] == 'f'
    ensures Peek(s, pos, "null") ==> s[pos] == 'n'
    ensures Peek(s, pos, "\"") <==> s[pos] == '"'
  {
    if Peek(s, pos, "true") { PeekFirst(s, pos, "true"); }
    if Peek(s, pos, "false") { PeekFirst(s, pos, "false"); }
    if Peek(s, pos, "null") { PeekFirst(s, pos, "null"); }
    assert s[pos..pos + 1] == [s[pos]];
  }

  lemma QuotedPieces(s: string, pos: nat, raw: string)
    requires Stands(s, pos, "\"" + raw + "\"")
    ensures PeekChar(s, pos, '"') && Stands(s, pos + 1, raw) && PeekChar(s, pos + 1 + |raw|, '"')
  {
    assert "\"" + raw + "\"" == "\"" + (raw + "\"");
    StandsSplit(s, pos, "\"", raw + "\"");
    StandsSplit(s, pos + 1, raw, "\"");
    StandsChar(s, pos, "\"", 0);
    StandsChar(s, pos + 1 + |raw|, "\"", 0);
  }

  lemma ParseStringStands(s: string, pos: nat, raw: string)
    requires RawString(raw) && Stands(s, pos, "\"" + raw + "\"")
    ensures ParseValue(s, pos) == Done(String(raw), pos + 2 + |raw|)
    ensures pos < |s| && s[pos] == '"'
  {
    hide ScanString, ParseNumber, RawString, Run, Stands;
    QuotedPieces(s, pos, raw);
    ScanRaw(s, pos + 1, raw);
    PeekKeywords(s, pos);
    NoSkip(s, pos);
    StandsIs(s, pos + 1, raw);
  }

  lemma StandsIs(s: string, pos: nat, t: string)
    requires Stands(s, pos, t)
    ensures pos + |t| <= |s| && s[pos..pos + |t|] == t
  {
  }

  lemma ParseValueStands(s: string, pos: nat, lit: Literal)
    requires GoodLiteral(lit) && Stands(s, pos, LiteralText(lit)) && Breaks(s, pos + |LiteralText(lit)|)
    ensures ParseValue(s, pos)
         == if Finite(lit) then Done(LiteralValue(lit), pos + |LiteralText(lit)|) else Bad(NotFinite)
    ensures pos < |s| && !IsSpace(s[pos]) && s[pos] != '='
  {
    hide ScanString, ParseNumber, NumeralText, NumeralValue, RawString, Run, Overflows;
    match lit
    case NumberLit(n) =>
      ParseNumberStands(s, pos, n);
      PeekKeywords(s, pos);
      NoSkip(s, pos);
    case StringLit(raw) =>
      ParseStringStands(s, pos, raw);
    case NullLit =>
      StandsChar(s, pos, "null", 0);
      PeekKeywords(s, pos);
      NoSkip(s, pos);
    case BoolLit(b) =>
      StandsChar(s, pos, LiteralText(lit), 0);
      PeekKeywords(s, pos);
      NoSkip(s, pos);
  }

  lemma ParseFieldStands(s: string, pos: nat, field: string)
    requires GoodField(field) && Stands(s, pos, "ctx." + field) && Breaks(s, pos + 4 + |field|)
    ensures ParseField(s, pos) == Done(field, pos + 4 + |field|)
  {
    StandsSplit(s, pos, "ctx.", field);
    RunStands(IsFieldChar, s, pos + 4, field);
    assert s[pos + 4..pos + 4 + |field|] == field;
  }

  /** A comparator at `p` is recognised as itself, given that what follows a lone `>` or `<` is not `=`. */
  lemma OperatorStands(s: string, field: string, p: nat, op: Comparator)
    requires Stands(s, p, OpText(op))
    requires (op.GtOp? || op.LtOp?) ==> !PeekChar(s, p + 1, '=')
    ensures ParseOperator(s, field, p) ==
            match op
            case EqOp => WithValue(v => Eq(field, v), ParseValue(s, SkipSpace(s, p + 2)))
            case NeOp => WithValue(v => Ne(field, v), ParseValue(s, SkipSpace(s, p + 2)))
            case GeOp => WithNumber(n => Ge(field, n), ParseNumber(s, SkipSpace(s, p + 2)))
            case LeOp => WithNumber(n => Le(field, n), ParseNumber(s, SkipSpace(s, p + 2)))
            case GtOp => WithNumber(n => Gt(field, n), ParseNumber(s, SkipSpace(s, p + 1)))
            case LtOp => WithNumber(n => Lt(field, n), ParseNumber(s, SkipSpace(s, p + 1)))
  {
    hide ParseValue, ParseNumber, SkipSpace;
    StandsChar(s, p, OpText(op), 0);
    forall w | w in ["==", "!=", ">=", "<="] ensures Peek(s, p, w) ==> s[p] == w[0] && PeekChar(s, p + 1, '=') {
      if Peek(s, p, w) {
        StandsChar(s, p, w, 0);
        StandsChar(s, p, w, 1);
      }
    }
    assert "==" in ["==", "!=", ">=", "<="] && "!=" in ["==", "!=", ">=", "<="];
    assert ">=" in ["==", "!=", ">=", "<="] && "<=" in ["==", "!=", ">=", "<="];
  }

  /** The pieces of a comparison's text, each where it stands. */
  lemma ComparePieces(s: string, pos: nat, c: Cst)
    requires c.Compare? && Stands(s, pos, Text(c))
    ensures var p1 := pos + 4 + |c.field|;
            var p2 := p1 + |c.before|;
            var p3 := p2 + |OpText(c.op)|;
            var p4 := p3 + |c.after|;
            && Stands(s, pos, "ctx." + c.field) && Stands(s, p1, c.before) && Stands(s, p2, OpText(c.op))
            && Stands(s, p3, c.after) && Stands(s, p4, LiteralText(c.lit))
            && pos + |Text(c)| == p4 + |LiteralText(c.lit)|
  {
    var head, op, lit := "ctx." + c.field, OpText(c.op), LiteralText(c.lit);
    assert Text(c) == head + c.before + op + c.after + lit;
    StandsSplit(s, pos, head + c.before + op + c.after, lit);
    StandsSplit(s, pos, head + c.before + op, c.after);
    StandsSplit(s, pos, head + c.before, op);
    StandsSplit(s, pos, head, c.before);
  }

  lemma OpTextStarts(op: Comparator)
    ensures OpText(op) != "" && OpText(op)[0] in {'=', '!', '<', '>'}
  {
  }

  /** Whitespace, then a character that is neither whitespace nor part of a field: a field in front ends here. */
  lemma GapBreaks(s: string, pos: nat, gap: string)
    requires Stands(s, pos, gap) && Spaces(gap)
    requires pos + |gap| < |s| && !IsFieldChar(s[pos + |gap|])
    ensures Breaks(s, pos)
  {
    if gap != "" {
      StandsChar(s, pos, gap, 0);
    }
  }

  lemma GapAfterOperator(s: string, pos: nat, gap: string)
    requires Stands(s, pos, gap) && Spaces(gap) && !PeekChar(s, pos + |gap|, '=')
    ensures !PeekChar(s, pos, '=')
  {
    if gap != "" {
      StandsChar(s, pos, gap, 0);
    }
  }

  /** From the comparator on: the comparison of `field` with the literal. */
  lemma OperandStands(s: string, field: string, p2: nat, c: Cst)
    requires c.Compare? && Good(c) && Stands(s, p2, OpText(c.op))
    requires var p3 := p2 + |OpText(c.op)|;
             && Stands(s, p3, c.after) && Stands(s, p3 + |c.after|, LiteralText(c.lit))
             && Breaks(s, p3 + |c.after| + |LiteralText(c.lit)|)
    ensures ParseOperator(s, field, p2)
         == Done(EraseCompare(field, c.op, c.lit), p2 + |OpText(c.op)| + |c.after| + |LiteralText(c.lit)|)
  {
    hide ParseOperator, ParseValue, ParseNumber, Stands, LiteralText, NumeralText, SkipSpace, GoodNumeral, RawString, Overflows;
    var p3 := p2 + |OpText(c.op)|;
    var p4 := p3 + |c.after|;
    ParseValueStands(s, p4, c.lit);
    SkipStands(s, p3, c.after);
    GapAfterOperator(s, p3, c.after);
    OperatorStands(s, field, p2, c.op);
    if c.lit.NumberLit? {
      NumberTextIs(c.lit);
      ParseNumberStands(s, p4, c.lit.n);
    }
  }

  lemma NumberTextIs(lit: Literal)
    requires lit.NumberLit?
    ensures LiteralText(lit) == NumeralText(lit.n)
  {
  }

  lemma CompareStands(s: string, pos: nat, c: Cst)
    requires c.Compare? && Good(c) && Stands(s, pos, Text(c)) && Follow(s, pos + |Text(c)|)
    ensures ParseComparison(s, pos) == Done(Erase(c), pos + |Text(c)|)
  {
    hide ParseField, ParseOperator, Text, Stands, SkipSpace, Follow, LiteralText, GoodLiteral, EraseCompare, All,
         GoodOperand;
    ComparePieces(s, pos, c);
    FollowChar(s, pos + |Text(c)|);
    var p1 := pos + 4 + |c.field|;
    var p2 := p1 + |c.before|;
    OpTextStarts(c.op);
    StandsChar(s, p2, OpText(c.op), 0);
    GapBreaks(s, p1, c.before);
    ParseFieldStands(s, pos, c.field);
    SkipStands(s, p1, c.before);
    CompareStart(s, pos, c.field);
    OperandStands(s, c.field, p2, c);
  }

  lemma CompareStart(s: string, pos: nat, field: string)
    requires Stands(s, pos, "ctx." + field)
    ensures PeekChar(s, pos, 'c') && SkipSpace(s, pos) == pos
  {
    StandsChar(s, pos, "ctx." + field, 0);
  }

  lemma CheckStands(s: string, pos: nat, field: string)
    requires GoodField(field) && Stands(s, pos, "ctx." + field) && Follow(s, pos + 4 + |field|)
    ensures ParseComparison(s, pos) == Done(Truthy(field), SkipSpace(s, pos + 4 + |field|))
  {
    hide ParseField, ParseValue, ParseNumber, Run, Stands;
    var end := pos + 4 + |field|;
    FollowChar(s, end);
    ParseFieldStands(s, pos, field);
    CompareStart(s, pos, field);
    NoOperator(s, SkipSpace(s, end), field);
  }

  lemma NoOperator(s: string, q: nat, field: string)
    requires q <= |s| && (q < |s| ==> s[q] in {')', '&', '|'})
    ensures ParseOperator(s, field, q) == Done(Truthy(field), q)
  {
    hide ParseValue, ParseNumber, SkipSpace;
    if q < |s| {
      if Peek(s, q, "==") { PeekFirst(s, q, "=="); }
      if Peek(s, q, "!=") { PeekFirst(s, q, "!="); }
      if Peek(s, q, ">=") { PeekFirst(s, q, ">="); }
      if Peek(s, q, "<=") { PeekFirst(s, q, "<="); }
    }
  }

  /** A successful parse of the operand that ends at `end`, up to whitespace already skipped behind it. */
  ghost predicate Ends(s: string, r: Parsed<Expr>, e: Expr, end: nat) {
    r.Done? && r.value == e && end <= r.pos <= |s| && SkipSpace(s, r.pos) == SkipSpace(s, end)
  }

  lemma TextStartsAt(s: string, pos: nat, c: Cst)
    requires Stands(s, pos, Text(c))
    ensures pos < |s| && s[pos] == Text(c)[0] && !IsSpace(s[pos]) && SkipSpace(s, pos) == pos
  {
    TextStarts(c);
    StandsChar(s, pos, Text(c), 0);
  }

  /** Leading whitespace makes no difference at any level. */
  lemma LeadingSpace(s: string, pos: nat)
    requires pos <= |s|
    ensures ParseUnary(s, pos) == ParseUnary(s, SkipSpace(s, pos))
    ensures ParseAnd(s, pos) == ParseAnd(s, SkipSpace(s, pos))
    ensures ParseOr(s, pos) == ParseOr(s, SkipSpace(s, pos))
  {
    hide ParsePrimary;
    SkipTwice(s, pos);
  }

  lemma {:induction false} UnaryStands(s: string, pos: nat, c: Cst)
    requires Good(c) && Level(c) >= 2 && Stands(s, pos, Text(c)) && Follow(s, pos + |Text(c)|)
    ensures Ends(s, ParseUnary(s, pos), Erase(c), pos + |Text(c)|)
    decreases c, 0
  {
    hide ParsePrimary, ParseComparison, SkipSpace, Stands, Follow;
    TextStartsAt(s, pos, c);
    UnaryGoesDown(s, pos);
    match c
    case Check(field) =>
      CheckStands(s, pos, field);
      SkipTwice(s, pos + |Text(c)|);
    case Compare(_, _, _, _, _) =>
      CompareStands(s, pos, c);
    case Negate(gap, inner) =>
      NegatePieces(s, pos, c);
      TextStartsAt(s, pos + 1 + |gap|, inner);
      SkipStands(s, pos + 1, gap);
      UnaryStands(s, pos + 1 + |gap|, inner);
    case Paren(open, inner, close) =>
      ParenStands(s, pos, c);
  }

  /** The first character decides which form an operand has. */
  lemma UnaryGoesDown(s: string, pos: nat)
    requires pos < |s| && !IsSpace(s[pos])
    ensures s[pos] != '!' ==> ParseUnary(s, pos) == ParsePrimary(s, pos)
    ensures s[pos] != '(' ==> ParsePrimary(s, pos) == ParseComparison(s, pos)
  {
    hide ParseComparison, ParseOr;
    NoSkip(s, pos);
  }

  lemma NegatePieces(s: string, pos: nat, c: Cst)
    requires c.Negate? && Stands(s, pos, Text(c))
    ensures Stands(s, pos + 1, c.gap) && Stands(s, pos + 1 + |c.gap|, Text(c.inner))
  {
    StandsSplit(s, pos, "!" + c.gap, Text(c.inner));
    StandsSplit(s, pos, "!", c.gap);
  }

  lemma ParenPieces(s: string, pos: nat, c: Cst)
    requires c.Paren? && Stands(s, pos, Text(c))
    ensures var p1 := pos + 1 + |c.open|;
            var p2 := p1 + |Text(c.inner)|;
            && Stands(s, pos + 1, c.open) && Stands(s, p1, Text(c.inner)) && Stands(s, p2, c.close)
            && PeekChar(s, p2 + |c.close|, ')') && pos + |Text(c)| == p2 + |c.close| + 1
  {
    var t := "(" + c.open + Text(c.inner) + c.close;
    StandsSplit(s, pos, t, ")");
    StandsSplit(s, pos, "(" + c.open + Text(c.inner), c.close);
    StandsSplit(s, pos, "(" + c.open, Text(c.inner));
    StandsSplit(s, pos, "(", c.open);
    StandsChar(s, pos + |t|, ")", 0);
  }

  lemma {:induction false} ParenStands(s: string, pos: nat, c: Cst)
    requires c.Paren? && Good(c) && Stands(s, pos, Text(c)) && PeekChar(s, pos, '(')
    ensures ParsePrimary(s, pos) == Done(Erase(c), pos + |Text(c)|)
    decreases c.inner, 4
  {
    hide ParseComparison, ParseOr, Stands, Follow, Text, SkipSpace;
    TextStartsAt(s, pos, c);
    ParenPieces(s, pos, c);
    var p1 := pos + 1 + |c.open|;
    var p2 := p1 + |Text(c.inner)|;
    TextStartsAt(s, p1, c.inner);
    SkipStands(s, pos + 1, c.open);
    LeadingSpace(s, pos + 1);
    FollowClose(s, p2, c.close);
    OrStands(s, p1, c.inner);
    OrLoopStops(s, p2 + |c.close|, Erase(c.inner));
    NoSkip(s, p2 + |c.close|);
  }

  lemma FollowClose(s: string, p: nat, close: string)
    requires Stands(s, p, close) && Spaces(close) && PeekChar(s, p + |close|, ')')
    ensures SkipSpace(s, p) == p + |close| && Follow(s, p)
  {
    SkipStands(s, p, close);
  }

  lemma OrLoopStops(s: string, q: nat, e: Expr)
    requires q <= |s| && (q < |s| ==> s[q] != '|')
    ensures OrLoop(s, q, e) == Done(e, q)
  {
    hide ParseAnd;
    if Peek(s, q, "||") {
      PeekFirst(s, q, "||");
    }
  }

  lemma AndLoopStops(s: string, q: nat, e: Expr)
    requires q <= |s| && (q < |s| ==> s[q] != '&')
    ensures AndLoop(s, q, e) == Done(e, q)
  {
    hide ParseUnary;
    if Peek(s, q, "&&") {
      PeekFirst(s, q, "&&");
    }
  }

  /** The pieces around a binary operator, and what they say about whitespace. */
  lemma BinaryPieces(s: string, pos: nat, left: string, before: string, op: string, after: string, right: string)
    requires Stands(s, pos, left + before + op + after + right)
    requires Spaces(before) && Spaces(after) && op in {"&&", "||"} && right != "" && !IsSpace(right[0])
    ensures var p1 := pos + |left|;
            var p2 := p1 + |before|;
            var p3 := p2 + 2 + |after|;
            && Stands(s, pos, left) && Stands(s, p3, right) && p3 < |s| && Peek(s, p2, op)
            && SkipSpace(s, p1) == p2 && SkipSpace(s, p2 + 2) == p3 && Follow(s, p1)
            && p3 + |right| == pos + |left + before + op + after + right|
  {
    hide Stands, SkipSpace;
    StandsSplit(s, pos, left + before + op + after, right);
    StandsSplit(s, pos, left + before + op, after);
    StandsSplit(s, pos, left + before, op);
    StandsSplit(s, pos, left, before);
    var p1 := pos + |left|;
    var p2 := p1 + |before|;
    StandsChar(s, p2, op, 0);
    StandsChar(s, p2 + 2 + |after|, right, 0);
    SkipStands(s, p1, before);
    SkipStands(s, p2 + 2, after);
    StandsIs(s, p2, op);
  }

  /** A conjunction text brings the parser to its own end, with its tree in hand. */
  lemma {:induction false} AndStands(s: string, pos: nat, c: Cst)
    requires Good(c) && Level(c) >= 1 && Stands(s, pos, Text(c)) && Follow(s, pos + |Text(c)|)
    ensures ParseAnd(s, pos) == AndLoop(s, SkipSpace(s, pos + |Text(c)|), Erase(c))
    decreases c, 1
  {
    hide ParseUnary, SkipSpace, Stands, Follow;
    if c.Both? {
      TextStarts(c.right);
      BinaryPieces(s, pos, Text(c.left), c.before, "&&", c.after, Text(c.right));
      var p1 := pos + |Text(c.left)|;
      var p2 := p1 + |c.before|;
      AndStands(s, pos, c.left);
      UnaryStands(s, p2 + 2 + |c.after|, c.right);
    } else {
      UnaryStands(s, pos, c);
    }
  }

  lemma AndDone(s: string, pos: nat, c: Cst)
    requires Good(c) && Level(c) >= 1 && Stands(s, pos, Text(c)) && Follow(s, pos + |Text(c)|)
    requires var q := SkipSpace(s, pos + |Text(c)|); q < |s| ==> s[q] != '&'
    ensures ParseAnd(s, pos) == Done(Erase(c), SkipSpace(s, pos + |Text(c)|))
    decreases c, 2
  {
    hide ParseAnd, SkipSpace, Stands, Follow;
    AndStands(s, pos, c);
    AndLoopStops(s, SkipSpace(s, pos + |Text(c)|), Erase(c));
  }

  lemma OrLoopStep(s: string, pos: nat, left: Expr, right: Expr, end: nat)
    requires pos <= |s| && Peek(s, pos, "||") && ParseAnd(s, SkipSpace(s, pos + 2)) == Done(right, end)
    ensures OrLoop(s, pos, left) == OrLoop(s, SkipSpace(s, end), Or(left, right))
  {
    hide ParseAnd, SkipSpace;
  }

  lemma {:induction false} OrStands(s: string, pos: nat, c: Cst)
    requires Good(c) && Stands(s, pos, Text(c)) && Follow(s, pos + |Text(c)|)
    requires var q := SkipSpace(s, pos + |Text(c)|); q < |s| ==> s[q] != '&'
    ensures ParseOr(s, pos) == OrLoop(s, SkipSpace(s, pos + |Text(c)|), Erase(c))
    decreases c, 3
  {
    hide ParseAnd, OrLoop, SkipSpace, Stands, Follow;
    SkipTwice(s, pos + |Text(c)|);
    if c.Either? {
      TextStarts(c.right);
      BinaryPieces(s, pos, Text(c.left), c.before, "||", c.after, Text(c.right));
      var p2 := pos + |Text(c.left)| + |c.before|;
      PeekFirst(s, p2, "||");
      OrStands(s, pos, c.left);
      AndDone(s, p2 + 2 + |c.after|, c.right);
      OrLoopStep(s, p2, Erase(c.left), Erase(c.right), SkipSpace(s, pos + |Text(c)|));
    } else {
      AndDone(s, pos, c);
    }
  }
}
