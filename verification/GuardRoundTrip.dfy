/** Guard round trips: parsing undoes writing, and every text that parses was written from its own tree. */
module GuardRoundTrip {
  import opened Common
  import opened Json
  import opened Guard
  import opened GuardParser
  import opened GuardPrinter

  /** Parsing the text of a syntax tree gives back the expression and consumes all of the text. */
  lemma ParseOfText(c: Cst)
    requires Good(c)
    ensures ParseOr(Text(c), 0) == Done(Erase(c), |Text(c)|)
  {
    hide ParseOr, Text, Good;
    var s := Text(c);
    assert s[0..0 + |s|] == s;
    assert SkipSpace(s, |s|) == |s|;
    OrStands(s, 0, c);
    OrLoopStops(s, |s|, Erase(c));
  }

  lemma {:induction false} TextEnds(c: Cst)
    requires Good(c)
    ensures Text(c) != "" && !IsSpace(Text(c)[|Text(c)| - 1])
  {
    match c
    case Check(field) =>
    case Compare(_, _, _, _, lit) => LiteralEnds(lit);
    case Negate(_, inner) => TextEnds(inner);
    case Both(_, _, _, r) => TextEnds(r);
    case Either(_, _, _, r) => TextEnds(r);
    case Paren(_, _, _) =>
  }

  lemma LiteralEnds(lit: Literal)
    requires GoodLiteral(lit)
    ensures LiteralText(lit) != "" && !IsSpace(LiteralText(lit)[|LiteralText(lit)| - 1])
  {
    hide RawString, NumeralValue, DigitsValue;
    match lit
    case NumberLit(n) =>
      var t := NumeralText(n);
      if n.point && n.fraction != "" {
        assert t[|t| - 1] == n.fraction[|n.fraction| - 1];
      } else if n.point {
        assert t[|t| - 1] == '.';
      } else {
        assert t[|t| - 1] == n.whole[|n.whole| - 1];
      }
    case _ =>
  }

  lemma {:induction false} TrimmedEndIs(s: string, end: nat)
    requires end <= |s| && (end > 0 ==> !IsSpace(s[end - 1])) && forall i :: end <= i < |s| ==> IsSpace(s[i])
    ensures TrimmedEnd(s) == end
    decreases |s|
  {
    if end < |s| {
      TrimmedEndIs(s[..|s| - 1], end);
    }
  }

  lemma TrimSurrounded(lead: string, t: string, trail: string)
    requires Spaces(lead) && Spaces(trail)
    requires t != "" && !IsSpace(t[0]) && !IsSpace(t[|t| - 1])
    ensures Trim(lead + t + trail) == t
  {
    var s := lead + t + trail;
    TrimmedEndIs(s, |lead| + |t|);
    assert s[..|lead| + |t|] == lead + t;
    assert (lead + t)[0..|lead|] == lead;
    SkipStands(lead + t, 0, lead);
  }

  /**
   The round trip: whatever whitespace stands between tokens and around the text, however numbers are spelled and
   wherever parentheses are added, parsing returns exactly the tree that was written.
   */
  lemma RoundTrip(lead: string, c: Cst, trail: string)
    requires Good(c) && Ascii(Text(c)) && Spaces(lead) && Spaces(trail)
    ensures Parse(lead + Text(c) + trail) == Ok(Erase(c))
  {
    hide ParseOr, Text, Good;
    TextStarts(c);
    TextEnds(c);
    TrimSurrounded(lead, Text(c), trail);
    ParseOfText(c);
  }

  // ---------------------------------------------------------------------------------------------------------------
  // Minimal parentheses
  // ---------------------------------------------------------------------------------------------------------------

  function Wrap(level: nat, c: Cst): Cst {
    if Level(c) >= level then c else Paren("", c, "")
  }

  /** The same expression with single spaces around binary operators and no parentheses beyond those it needs. */
  function Minimal(c: Cst): Cst {
    match c
    case Check(_) => c
    case Compare(field, _, op, _, lit) => Compare(field, " ", op, " ", lit)
    case Negate(_, inner) => Negate("", Wrap(2, Minimal(inner)))
    case Both(l, _, _, r) => Both(Wrap(1, Minimal(l)), " ", " ", Wrap(2, Minimal(r)))
    case Either(l, _, _, r) => Either(Minimal(l), " ", " ", Wrap(1, Minimal(r)))
    case Paren(_, inner, _) => Minimal(inner)
  }

  /** Removing any pair of parentheses would change how the text parses: each encloses a looser operator. */
  ghost predicate NeedsItsParens(c: Cst, level: nat) {
    match c
    case Paren(_, inner, _) => Level(inner) < level && NeedsItsParens(inner, 0)
    case Negate(_, inner) => NeedsItsParens(inner, 2)
    case Both(l, _, _, r) => NeedsItsParens(l, 1) && NeedsItsParens(r, 2)
    case Either(l, _, _, r) => NeedsItsParens(l, 0) && NeedsItsParens(r, 1)
    case _ => true
  }

  lemma WrapKeeps(level: nat, c: Cst)
    requires Good(c) && NeedsItsParens(c, 0)
    ensures Good(Wrap(level, c)) && Erase(Wrap(level, c)) == Erase(c) && NeedsItsParens(Wrap(level, c), level)
    ensures level <= 2 ==> Level(Wrap(level, c)) >= level
  {
  }

  lemma {:induction false} MinimalKeeps(c: Cst)
    requires Good(c)
    ensures Good(Minimal(c)) && Erase(Minimal(c)) == Erase(c) && NeedsItsParens(Minimal(c), 0)
  {
    match c
    case Check(_) =>
    case Compare(_, _, _, _, _) =>
    case Negate(_, inner) =>
      MinimalKeeps(inner);
      WrapKeeps(2, Minimal(inner));
    case Both(l, _, _, r) =>
      MinimalKeeps(l);
      MinimalKeeps(r);
      WrapKeeps(1, Minimal(l));
      WrapKeeps(2, Minimal(r));
    case Either(l, _, _, r) =>
      MinimalKeeps(l);
      MinimalKeeps(r);
      WrapKeeps(1, Minimal(r));
    case Paren(_, inner, _) => MinimalKeeps(inner);
  }

  // ---------------------------------------------------------------------------------------------------------------
  // Whatever parses was written
  // ---------------------------------------------------------------------------------------------------------------

  ghost predicate Blank(s: string, from: nat, to: nat) {
    from <= to <= |s| && forall i :: from <= i < to ==> IsSpace(s[i])
  }

  /** The text of `c` stands at `start`, and only whitespace separates its end from `pos`. */
  ghost predicate Reads(s: string, start: nat, c: Cst, pos: nat) {
    Good(c) && Stands(s, start, Text(c)) && Blank(s, start + |Text(c)|, pos)
  }

  lemma SkipIsBlank(s: string, pos: nat)
    requires pos <= |s|
    ensures Blank(s, pos, SkipSpace(s, pos))
  {
    RunChars(IsSpace, s, pos);
  }

  lemma BlankJoins(s: string, from: nat, mid: nat, to: nat)
    requires Blank(s, from, mid) && Blank(s, mid, to)
    ensures Blank(s, from, to) && from <= to <= |s|
  {
  }

  lemma BlankNothing(s: string, pos: nat)
    requires pos <= |s|
    ensures Blank(s, pos, pos)
  {
  }

  lemma BlankGap(s: string, from: nat, to: nat)
    requires Blank(s, from, to)
    ensures from <= to <= |s| && Spaces(s[from..to]) && Stands(s, from, s[from..to])
  {
  }

  lemma NumeralSound(s: string, pos: nat)
    requires pos <= |s| && HasDigits(ScanNumeral(s, pos).0)
    ensures var (n, end) := ScanNumeral(s, pos);
            GoodNumeral(n) && Stands(s, pos, NumeralText(n)) && end == pos + |NumeralText(n)|
  {
    hide Stands, Run, DigitsValue;
    var (n, end) := ScanNumeral(s, pos);
    var p1 := if n.negative then pos + 1 else pos;
    var p2 := p1 + |n.whole|;
    RunChars(IsDigit, s, p1);
    StandsSlice(s, p1, p2);
    PointSound(s, p2, end, n);
    StandsSplit(s, p1, n.whole, PointText(n));
    SignSound(s, pos, n);
    StandsSplit(s, pos, SignText(n), n.whole + PointText(n));
  }

  lemma PointSound(s: string, pos: nat, end: nat, n: Numeral)
    requires pos <= end <= |s|
    requires if n.point then PeekChar(s, pos, '.') && end == Run(IsDigit, s, pos + 1) && n.fraction == s[pos + 1..end]
             else end == pos && n.fraction == ""
    ensures Stands(s, pos, PointText(n)) && end == pos + |PointText(n)| && All(IsDigit, n.fraction)
  {
    hide Stands, Run;
    if n.point {
      RunChars(IsDigit, s, pos + 1);
      CharStands(s, pos, '.');
      StandsSlice(s, pos + 1, end);
      StandsSplit(s, pos, ['.'], n.fraction);
    } else {
      StandsSlice(s, pos, pos);
    }
  }

  lemma SignSound(s: string, pos: nat, n: Numeral)
    requires pos <= |s| && (n.negative ==> PeekChar(s, pos, '-'))
    ensures Stands(s, pos, SignText(n))
  {
  }

  lemma StandsSlice(s: string, from: nat, to: nat)
    requires from <= to <= |s|
    ensures Stands(s, from, s[from..to])
  {
  }

  lemma {:induction false} ScanStringSound(s: string, pos: nat)
    requires ScanString(s, pos).Done?
    ensures RawString(s[pos..ScanString(s, pos).pos])
    decreases |s| + 2 - pos
  {
    var end := ScanString(s, pos).pos;
    if s[pos] != '"' {
      var k := if s[pos] == '\\' then 2 else 1;
      ScanStringSound(s, pos + k);
      assert s[pos..end][k..] == s[pos + k..end];
    }
  }

  lemma ValueSound(s: string, pos: nat) returns (lit: Literal)
    requires pos <= |s| && ParseValue(s, pos).Done?
    ensures GoodLiteral(lit) && Finite(lit) && LiteralValue(lit) == ParseValue(s, pos).value
    ensures Stands(s, SkipSpace(s, pos), LiteralText(lit))
    ensures ParseValue(s, pos).pos == SkipSpace(s, pos) + |LiteralText(lit)|
  {
    hide ScanString, RawString, NumeralText, GoodNumeral, NumeralValue, SkipSpace, Overflows;
    var start := SkipSpace(s, pos);
    if Peek(s, start, "true") {
      return BoolLit(true);
    } else if Peek(s, start, "false") {
      return BoolLit(false);
    } else if Peek(s, start, "null") {
      return NullLit;
    } else if Peek(s, start, "\"") {
      StringSound(s, start);
      return StringLit(s[start + 1..ScanString(s, start + 1).pos]);
    } else {
      SkipTwice(s, pos);
      NumeralSound(s, start);
      return NumberLit(ScanNumeral(s, start).0);
    }
  }

  lemma StringSound(s: string, start: nat)
    requires PeekChar(s, start, '"') && ScanString(s, start + 1).Done?
    ensures var end := ScanString(s, start + 1).pos;
            var raw := s[start + 1..end];
            RawString(raw) && Stands(s, start, "\"" + raw + "\"") && end + 1 == start + |"\"" + raw + "\""|
  {
    hide ScanString, RawString, Stands;
    ScanStringSound(s, start + 1);
    ClosingQuote(s, start + 1);
    var end := ScanString(s, start + 1).pos;
    StandsSlice(s, start, end + 1);
    assert s[start..end + 1] == "\"" + s[start + 1..end] + "\"";
  }

  lemma {:induction false} ClosingQuote(s: string, pos: nat)
    requires ScanString(s, pos).Done?
    ensures s[ScanString(s, pos).pos] == '"'
    decreases |s| + 2 - pos
  {
    if s[pos] != '"' {
      ClosingQuote(s, if s[pos] == '\\' then pos + 2 else pos + 1);
    }
  }

  lemma NumberSound(s: string, pos: nat) returns (lit: Literal)
    requires pos <= |s| && ParseNumber(s, pos).Done?
    ensures lit.NumberLit? && GoodLiteral(lit) && NumeralValue(lit.n) == ParseNumber(s, pos).value
    ensures Stands(s, SkipSpace(s, pos), LiteralText(lit))
    ensures ParseNumber(s, pos).pos == SkipSpace(s, pos) + |LiteralText(lit)|
  {
    hide NumeralText, GoodNumeral, NumeralValue, SkipSpace;
    NumeralSound(s, SkipSpace(s, pos));
    return NumberLit(ScanNumeral(s, SkipSpace(s, pos)).0);
  }

  /** The comparator found at `p`, with its operand; `None` when there is none. */
  lemma OperatorSound(s: string, field: string, p: nat) returns (found: Option<(Comparator, string, Literal)>)
    requires p <= |s| && ParseOperator(s, field, p).Done?
    ensures found.None? ==> ParseOperator(s, field, p) == Done(Truthy(field), p)
    ensures found.Some? ==>
              var (op, after, lit) := found.value;
              && Spaces(after) && GoodLiteral(lit) && GoodOperand(op, lit)
              && Stands(s, p, OpText(op)) && Stands(s, p + |OpText(op)|, after)
              && Stands(s, p + |OpText(op)| + |after|, LiteralText(lit))
              && ParseOperator(s, field, p).value == EraseCompare(field, op, lit)
              && ParseOperator(s, field, p).pos == p + |OpText(op)| + |after| + |LiteralText(lit)|
  {
    hide ParseValue, ParseNumber, SkipSpace, LiteralText, LiteralValue, NumeralValue, GoodLiteral, Blank, Finite;
    var op :=
      if Peek(s, p, "==") then Some(EqOp) else if Peek(s, p, "!=") then Some(NeOp)
      else if Peek(s, p, ">=") then Some(GeOp) else if Peek(s, p, "<=") then Some(LeOp)
      else if PeekChar(s, p, '>') then Some(GtOp) else if PeekChar(s, p, '<') then Some(LtOp) else None;
    if op.None? {
      return None;
    }
    assert Stands(s, p, OpText(op.value)) by {
      assert op.value.GtOp? ==> s[p..p + 1] == ">";
      assert op.value.LtOp? ==> s[p..p + 1] == "<";
    }
    hide Stands;
    var from := p + |OpText(op.value)|;
    var start := SkipSpace(s, from);
    SkipIsBlank(s, from);
    BlankGap(s, from, start);
    SkipTwice(s, from);
    var lit;
    if op.value.EqOp? || op.value.NeOp? {
      lit := ValueSound(s, start);
    } else {
      lit := NumberSound(s, start);
      NumberValueIs(lit);
    }
    return Some((op.value, s[from..start], lit));
  }

  lemma NumberValueIs(lit: Literal)
    requires lit.NumberLit?
    ensures LiteralValue(lit) == Number(NumeralValue(lit.n))
  {
  }

  lemma FieldSound(s: string, pos: nat)
    requires pos <= |s| && ParseField(s, pos).Done?
    ensures var r := ParseField(s, pos);
            GoodField(r.value) && Stands(s, pos, "ctx." + r.value) && r.pos == pos + 4 + |r.value|
  {
    var r := ParseField(s, pos);
    RunChars(IsFieldChar, s, pos + 4);
    StandsSlice(s, pos + 4, r.pos);
    StandsSplit(s, pos, "ctx.", r.value);
  }

  lemma ComparisonSound(s: string, pos: nat) returns (c: Cst)
    requires pos <= |s| && ParseComparison(s, pos).Done?
    ensures Level(c) == 2 && Erase(c) == ParseComparison(s, pos).value
    ensures Reads(s, SkipSpace(s, pos), c, ParseComparison(s, pos).pos)
  {
    hide ParseField, ParseOperator, SkipSpace, Stands, LiteralText, GoodLiteral, EraseCompare;
    var start := SkipSpace(s, pos);
    FieldSound(s, start);
    var field, p := ParseField(s, start).value, ParseField(s, start).pos;
    var q := SkipSpace(s, p);
    SkipIsBlank(s, p);
    BlankGap(s, p, q);
    var found := OperatorSound(s, field, q);
    if found.None? {
      return Check(field);
    }
    var (op, after, lit) := found.value;
    c := Compare(field, s[p..q], op, after, lit);
    CompareJoins(s, start, c);
  }

  lemma CompareJoins(s: string, pos: nat, c: Cst)
    requires c.Compare?
    requires var p1 := pos + 4 + |c.field|;
             var p2 := p1 + |c.before|;
             var p3 := p2 + |OpText(c.op)|;
             && Stands(s, pos, "ctx." + c.field) && Stands(s, p1, c.before) && Stands(s, p2, OpText(c.op))
             && Stands(s, p3, c.after) && Stands(s, p3 + |c.after|, LiteralText(c.lit))
    ensures Stands(s, pos, Text(c))
    ensures pos + |Text(c)|
         == pos + 4 + |c.field| + |c.before| + |OpText(c.op)| + |c.after| + |LiteralText(c.lit)| <= |s|
  {
    var head, op, lit := "ctx." + c.field, OpText(c.op), LiteralText(c.lit);
    hide OpText, LiteralText;
    StandsSplit(s, pos, head + c.before + op + c.after, lit);
    StandsSplit(s, pos, head + c.before + op, c.after);
    StandsSplit(s, pos, head + c.before, op);
    StandsSplit(s, pos, head, c.before);
  }

  lemma BinaryJoins(s: string, pos: nat, left: string, before: string, op: string, after: string, right: string)
    requires Stands(s, pos, left) && Stands(s, pos + |left|, before) && Stands(s, pos + |left| + |before|, op)
    requires Stands(s, pos + |left| + |before| + |op|, after)
    requires Stands(s, pos + |left| + |before| + |op| + |after|, right)
    ensures Stands(s, pos, left + before + op + after + right)
  {
    hide Stands;
    StandsSplit(s, pos, left + before + op + after, right);
    StandsSplit(s, pos, left + before + op, after);
    StandsSplit(s, pos, left + before, op);
    StandsSplit(s, pos, left, before);
  }

  lemma {:induction false} UnarySound(s: string, pos: nat) returns (c: Cst)
    requires pos <= |s| && ParseUnary(s, pos).Done?
    ensures Level(c) == 2 && Erase(c) == ParseUnary(s, pos).value
    ensures Reads(s, SkipSpace(s, pos), c, ParseUnary(s, pos).pos)
    decreases |s| - pos, 2
  {
    hide ParsePrimary, SkipSpace, Stands, Text, Blank;
    var start := SkipSpace(s, pos);
    SkipTwice(s, pos);
    if PeekChar(s, start, '!') {
      var next := SkipSpace(s, start + 1);
      SkipTwice(s, start + 1);
      SkipIsBlank(s, start + 1);
      BlankGap(s, start + 1, next);
      var inner := UnarySound(s, next);
      c := Negate(s[start + 1..next], inner);
      NegateJoins(s, start, c);
    } else {
      c := PrimarySound(s, start);
    }
  }

  lemma NegateJoins(s: string, pos: nat, c: Cst)
    requires c.Negate? && PeekChar(s, pos, '!') && Stands(s, pos + 1, c.gap)
    requires Stands(s, pos + 1 + |c.gap|, Text(c.inner))
    ensures Stands(s, pos, Text(c)) && |Text(c)| == 1 + |c.gap| + |Text(c.inner)|
  {
    assert s[pos..pos + 1] == "!";
    StandsSplit(s, pos, "!", c.gap);
    StandsSplit(s, pos, "!" + c.gap, Text(c.inner));
  }

  lemma {:induction false} PrimarySound(s: string, pos: nat) returns (c: Cst)
    requires pos <= |s| && ParsePrimary(s, pos).Done?
    ensures Level(c) == 2 && Erase(c) == ParsePrimary(s, pos).value
    ensures Reads(s, SkipSpace(s, pos), c, ParsePrimary(s, pos).pos)
    decreases |s| - pos, 1
  {
    hide ParseComparison, ParseOr, SkipSpace, Stands, Text, Blank;
    var start := SkipSpace(s, pos);
    SkipTwice(s, pos);
    if PeekChar(s, start, '(') {
      var inner := OrSound(s, start + 1);
      var from, p := SkipSpace(s, start + 1), ParseOr(s, start + 1).pos;
      SkipIsBlank(s, start + 1);
      BlankGap(s, start + 1, from);
      SkipIsBlank(s, p);
      var end := from + |Text(inner)|;
      BlankJoins(s, end, p, SkipSpace(s, p));
      BlankGap(s, end, SkipSpace(s, p));
      c := Paren(s[start + 1..from], inner, s[end..SkipSpace(s, p)]);
      ParenJoins(s, start, c);
      BlankNothing(s, start + |Text(c)|);
    } else {
      c := ComparisonSound(s, start);
    }
  }

  lemma ParenJoins(s: string, pos: nat, c: Cst)
    requires c.Paren? && PeekChar(s, pos, '(') && Stands(s, pos + 1, c.open)
    requires var p1 := pos + 1 + |c.open|;
             var p2 := p1 + |Text(c.inner)|;
             Stands(s, p1, Text(c.inner)) && Stands(s, p2, c.close) && PeekChar(s, p2 + |c.close|, ')')
    ensures Stands(s, pos, Text(c)) && |Text(c)| == 2 + |c.open| + |Text(c.inner)| + |c.close|
  {
    hide Stands, Text;
    var open, inner := ['('] + c.open, Text(c.inner);
    CharStands(s, pos, '(');
    StandsSplit(s, pos, ['('], c.open);
    StandsSplit(s, pos, open, inner);
    StandsSplit(s, pos, open + inner, c.close);
    CharStands(s, pos + |open + inner + c.close|, ')');
    StandsSplit(s, pos, open + inner + c.close, [')']);
    ParenText(c);
  }

  lemma CharStands(s: string, pos: nat, c: char)
    requires PeekChar(s, pos, c)
    ensures Stands(s, pos, [c])
  {
  }

  lemma ParenText(c: Cst)
    requires c.Paren?
    ensures Text(c) == ['('] + c.open + Text(c.inner) + c.close + [')']
  {
  }

  lemma {:induction false} AndSound(s: string, pos: nat) returns (c: Cst)
    requires pos <= |s| && ParseAnd(s, pos).Done?
    ensures Level(c) >= 1 && Erase(c) == ParseAnd(s, pos).value
    ensures Reads(s, SkipSpace(s, pos), c, ParseAnd(s, pos).pos)
    decreases |s| - pos, 3
  {
    hide ParseUnary, AndLoop, SkipSpace;
    var first := UnarySound(s, pos);
    var p := ParseUnary(s, pos).pos;
    SkipIsBlank(s, p);
    c := AndLoopSound(s, SkipSpace(s, pos), first, SkipSpace(s, p));
  }

  lemma {:induction false} AndLoopSound(s: string, start: nat, left: Cst, pos: nat) returns (c: Cst)
    requires Reads(s, start, left, pos) && Level(left) >= 1 && AndLoop(s, pos, Erase(left)).Done?
    ensures Level(c) >= 1 && Erase(c) == AndLoop(s, pos, Erase(left)).value
    ensures Reads(s, start, c, AndLoop(s, pos, Erase(left)).pos)
    decreases |s| - pos, 0
  {
    hide ParseUnary, SkipSpace, Stands;
    if !Peek(s, pos, "&&") {
      return left;
    }
    var from := SkipSpace(s, pos + 2);
    SkipTwice(s, pos + 2);
    SkipIsBlank(s, pos + 2);
    BlankGap(s, pos + 2, from);
    BlankGap(s, start + |Text(left)|, pos);
    var right := UnarySound(s, from);
    var p := ParseUnary(s, from).pos;
    SkipIsBlank(s, p);
    var both := Both(left, s[start + |Text(left)|..pos], s[pos + 2..from], right);
    PeekStands(s, pos, "&&");
    BinaryJoins(s, start, Text(left), both.before, "&&", both.after, Text(right));
    c := AndLoopSound(s, start, both, SkipSpace(s, p));
  }

  lemma PeekStands(s: string, pos: nat, lit: string)
    requires pos <= |s| && Peek(s, pos, lit)
    ensures Stands(s, pos, lit)
  {
  }

  lemma {:induction false} OrSound(s: string, pos: nat) returns (c: Cst)
    requires pos <= |s| && ParseOr(s, pos).Done?
    ensures Erase(c) == ParseOr(s, pos).value
    ensures Reads(s, SkipSpace(s, pos), c, ParseOr(s, pos).pos)
    decreases |s| - pos, 4
  {
    hide ParseAnd, OrLoop, SkipSpace;
    var first := AndSound(s, pos);
    var p := ParseAnd(s, pos).pos;
    SkipIsBlank(s, p);
    c := OrLoopSound(s, SkipSpace(s, pos), first, SkipSpace(s, p));
  }

  lemma {:induction false} OrLoopSound(s: string, start: nat, left: Cst, pos: nat) returns (c: Cst)
    requires Reads(s, start, left, pos) && OrLoop(s, pos, Erase(left)).Done?
    ensures Erase(c) == OrLoop(s, pos, Erase(left)).value
    ensures Reads(s, start, c, OrLoop(s, pos, Erase(left)).pos)
    decreases |s| - pos, 0
  {
    hide ParseAnd, SkipSpace, Stands;
    if !Peek(s, pos, "||") {
      return left;
    }
    var from := SkipSpace(s, pos + 2);
    SkipTwice(s, pos + 2);
    SkipIsBlank(s, pos + 2);
    BlankGap(s, pos + 2, from);
    BlankGap(s, start + |Text(left)|, pos);
    var right := AndSound(s, from);
    var p := ParseAnd(s, from).pos;
    SkipIsBlank(s, p);
    var either := Either(left, s[start + |Text(left)|..pos], s[pos + 2..from], right);
    PeekStands(s, pos, "||");
    BinaryJoins(s, start, Text(left), either.before, "||", either.after, Text(right));
    c := OrLoopSound(s, start, either, SkipSpace(s, p));
  }

  /**
   For every tree the parser can produce, from any input whatever: the input begins, behind whitespace, with a text of
   that tree, and printing the tree with only the parentheses it needs parses back to it, to the last character.
   */
  lemma ParserRange(input: string) returns (c: Cst)
    requires Ascii(input) && Parse(input).Ok?
    ensures Good(c) && Erase(c) == Parse(input).value && Text(c) <= Trim(input)
    ensures ParseOr(Text(Minimal(c)), 0) == Done(Parse(input).value, |Text(Minimal(c))|)
    ensures NeedsItsParens(Minimal(c), 0)
  {
    hide ParseOr, Text, Good, SkipSpace;
    var s := Trim(input);
    c := OrSound(s, 0);
    TrimStarts(input);
    MinimalKeeps(c);
    ParseOfText(Minimal(c));
  }

  lemma TrimStarts(input: string)
    ensures SkipSpace(Trim(input), 0) == 0
  {
    var t := input[..TrimmedEnd(input)];
    RunChars(IsSpace, t, 0);
  }

  // ---------------------------------------------------------------------------------------------------------------
  // The one way to leave the input
  // ---------------------------------------------------------------------------------------------------------------

  /** How many backslashes stand directly in front of `q`, looking back no further than `from`. */
  function Slashes(s: string, from: nat, q: nat): nat
    requires q <= |s|
  {
    if from < q && s[q - 1] == '\\' then 1 + Slashes(s, from, q - 1) else 0
  }

  /** Moving the start of a scan past one unescaped character, or past an escape pair, keeps the parity. */
  lemma {:induction false} SlashesParity(s: string, from: nat, k: nat, q: nat)
    requires from + k <= q <= |s|
    requires (k == 1 && s[from] != '\\') || (k == 2 && s[from] == '\\')
    ensures Slashes(s, from, q) % 2 == Slashes(s, from + k, q) % 2
    decreases q
  {
    if from + k < q && s[q - 1] == '\\' {
      SlashesParity(s, from, k, q - 1);
    } else if q == from + k && k == 2 {
      assert Slashes(s, from, from + 1) == 1 + Slashes(s, from, from) == 1;
    }
  }

  /** No quote from `pos` on is unescaped, and the text ends inside an escape. */
  ghost predicate DanglingEscape(s: string, pos: nat)
    requires pos <= |s|
  {
    && (forall q :: pos <= q < |s| && s[q] == '"' ==> Slashes(s, pos, q) % 2 == 1)
    && Slashes(s, pos, |s|) % 2 == 1
  }

  /** Scanning a string literal runs past the end of the input exactly on a dangling escape. */
  lemma {:induction false} ScanPanics(s: string, pos: nat)
    requires pos <= |s|
    ensures ScanString(s, pos) == Bad(PastEnd) <==> DanglingEscape(s, pos)
    decreases |s| - pos
  {
    if pos == |s| {
    } else if s[pos] == '"' {
      assert Slashes(s, pos, pos) == 0;
    } else {
      var k := if s[pos] == '\\' then 2 else 1;
      if pos + k <= |s| {
        ScanPanics(s, pos + k);
        SlashesParity(s, pos, k, |s|);
        forall q | pos + k <= q < |s| ensures Slashes(s, pos, q) % 2 == Slashes(s, pos + k, q) % 2 {
          SlashesParity(s, pos, k, q);
        }
        assert Slashes(s, pos, pos) == 0;
        assert k == 2 ==> Slashes(s, pos, pos + 1) == 1;
      } else {
        assert Slashes(s, pos, pos) == 0;
        assert Slashes(s, pos, |s|) == 1;
      }
    }
  }

  ghost predicate NoTrailingBackslash(s: string) {
    s != "" ==> s[|s| - 1] != '\\'
  }

  lemma PanicExample()
    ensures ParseOr("ctx.a==\"\\", 0) == Bad(PastEnd)
  {
    var s := "ctx.a==\"\\";
    CompareStart(s, 0, "a");
    StandsSlice(s, 0, 5);
    assert s[0..5] == "ctx.a";
    ParseFieldStands(s, 0, "a");
    assert Peek(s, 5, "==");
    NoSkip(s, 5);
    NoSkip(s, 7);
    NoSkip(s, 0);
    ScanPanics(s, 8);
    assert Slashes(s, 8, 8) == 0;
    assert DanglingEscape(s, 8);
    PeekKeywords(s, 7);
    hide ScanString, ParseField, SkipSpace;
    assert ParseValue(s, 7) == Bad(PastEnd);
    assert ParseComparison(s, 0) == Bad(PastEnd);
    UnaryGoesDown(s, 0);
  }
}
