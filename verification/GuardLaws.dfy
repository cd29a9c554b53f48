/** What guards mean: laws of evaluation, on values, on field paths and on guard texts. */
module GuardLaws {
  import opened Common
  import opened Json
  import opened Guard
  import opened GuardParser
  import opened GuardPrinter
  import opened GuardRoundTrip

  // ---------------------------------------------------------------------------------------------------------------
  // Numbers
  // ---------------------------------------------------------------------------------------------------------------

  function Digit(c: char): real { (c as int - '0' as int) as real }

  function Tens(k: nat): real { Pow10(k) as real }

  /** What the digits of a numeral denote: the first one counts most. */
  function Denoted(digits: string): real {
    if digits == "" then 0.0 else Digit(digits[0]) * Tens(|digits| - 1) + Denoted(digits[1..])
  }

  lemma {:induction false} DigitsDenote(digits: string)
    requires All(IsDigit, digits)
    ensures DigitsValue(digits) as real == Denoted(digits)
  {
    if digits == "" {
    } else {
      var n := |digits| - 1;
      DigitsDenote(digits[..n]);
      DenotedConcat(digits[..n], [digits[n]]);
      assert digits == digits[..n] + [digits[n]];
      assert Denoted([digits[n]]) == Digit(digits[n]) by { assert [digits[n]][1..] == ""; }
      assert Tens(1) == 10.0;
    }
  }

  lemma {:induction false} DenotedConcat(a: string, b: string)
    ensures Denoted(a + b) == Denoted(a) * Tens(|b|) + Denoted(b)
  {
    hide Digit, Tens, Denoted;
    if a == "" {
      assert a + b == b && Denoted("") == 0.0 by { NothingDenoted(); }
    } else {
      DenotedConcat(a[1..], b);
      assert (a + b)[1..] == a[1..] + b && (a + b)[0] == a[0];
      TensAdd(|a| - 1, |b|);
      DenotedCons(a);
      DenotedCons(a + b);
      Distribute(Denoted(a), Digit(a[0]), Tens(|a| - 1), Tens(|b|), Denoted(a[1..]), Tens(|a| - 1 + |b|));
    }
  }

  lemma NothingDenoted()
    ensures Denoted("") == 0.0
  {
  }

  lemma DenotedCons(digits: string)
    requires digits != ""
    ensures Denoted(digits) == Digit(digits[0]) * Tens(|digits| - 1) + Denoted(digits[1..])
  {
  }

  lemma Distribute(x: real, d: real, p: real, q: real, rest: real, pq: real)
    requires pq == p * q && x == d * p + rest
    ensures x * q == d * pq + rest * q
  {
    assert (d * p) * q == d * (p * q);
  }

  lemma {:induction false} TensAdd(a: nat, b: nat)
    ensures Tens(a + b) == Tens(a) * Tens(b)
  {
    if a > 0 {
      TensAdd(a - 1, b);
      Tenfold(Tens(a - 1), Tens(b));
    }
  }

  lemma Tenfold(p: real, q: real)
    ensures (10.0 * p) * q == 10.0 * (p * q)
  {
  }

  /** The value of a numeral: sign, digits in front of the point, and behind it tenths, hundredths and so on. */
  lemma NumeralDenotes(n: Numeral)
    requires GoodNumeral(n)
    ensures Tens(|n.fraction|) > 0.0
    ensures var size := Denoted(n.whole) + Denoted(n.fraction) / Tens(|n.fraction|);
            AsReal(NumeralValue(n)) == if n.negative then -size else size
  {
    hide Normal, Denoted, DigitsValue;
    var digits := n.whole + n.fraction;
    DigitsDenote(digits);
    DenotedConcat(n.whole, n.fraction);
    var value: int := DigitsValue(digits);
    NormalKeeps(Decimal(if n.negative then -value else value, |n.fraction|));
    Divide(Denoted(n.whole), Denoted(n.fraction), Tens(|n.fraction|), value as real);
  }

  lemma Divide(a: real, b: real, p: real, x: real)
    requires p > 0.0 && x == a * p + b
    ensures x / p == a + b / p && (-x) / p == -(a + b / p)
  {
    var q := b / p;
    assert q * p == b;
    assert (a + q) * p == x;
    assert (-(a + q)) * p == -x;
  }

  /** A decimal is its digits, shifted by its scale. */
  lemma DecimalShifts(d: Decimal)
    ensures d.scale == 0 ==> AsReal(d) == d.digits as real
    ensures d.scale > 0 ==> 10.0 * AsReal(d) == AsReal(Decimal(d.digits, d.scale - 1))
  {
    if d.scale > 0 {
      var p, x := Pow10(d.scale - 1) as real, d.digits as real;
      assert Pow10(d.scale) as real == 10.0 * p;
      var q := x / (10.0 * p);
      assert q * (10.0 * p) == x;
      assert (10.0 * q) * p == x;
    }
  }

  // ---------------------------------------------------------------------------------------------------------------
  // Fields
  // ---------------------------------------------------------------------------------------------------------------

  lemma {:induction false} WalkOn(v: Value, a: seq<string>, b: seq<string>)
    ensures Walk(v, a + b) == Walk(Walk(v, a), b)
    decreases |a|
  {
    if a == [] {
      assert a + b == b;
    } else {
      assert (a + b)[0] == a[0] && (a + b)[1..] == a[1..] + b;
      match v
      case Object(fields) => WalkOn(if a[0] in fields then fields[a[0]] else Null, a[1..], b);
      case _ => NullLeadsNowhere(b);
    }
  }

  lemma NullLeadsNowhere(parts: seq<string>)
    ensures Walk(Null, parts) == Null
  {
  }

  lemma {:induction false} SplitConcat(a: string, b: string)
    ensures SplitDots(a + "." + b) == SplitDots(a) + SplitDots(b)
  {
    hide SplitDots;
    var s := a + "." + b;
    if a == "" {
      assert s[0] == '.' && s[1..] == b;
      SplitCons(s);
      SplitEmpty();
    } else {
      SplitConcat(a[1..], b);
      SplitCons(a);
      SplitCons(s);
      var rest, more := SplitDots(a[1..]), SplitDots(b);
      assert s[0] == a[0] && s[1..] == a[1..] + "." + b;
      if a[0] != '.' {
        assert (rest + more)[0] == rest[0] && (rest + more)[1..] == rest[1..] + more;
      }
    }
  }

  lemma SplitEmpty()
    ensures SplitDots("") == [""]
  {
  }

  lemma SplitCons(s: string)
    requires s != ""
    ensures var rest := SplitDots(s[1..]);
            SplitDots(s) == if s[0] == '.' then [""] + rest else [[s[0]] + rest[0]] + rest[1..]
  {
  }

  lemma {:induction false} SplitPlain(key: string)
    requires '.' !in key
    ensures SplitDots(key) == [key]
  {
    if key == "" {
    } else {
      SplitPlain(key[1..]);
      assert key == [key[0]] + key[1..] && key[0] in key;
    }
  }

  /** A name without dots is a key of an object, and null where there is no such key. */
  lemma PlainField(ctx: Value, key: string)
    requires '.' !in key
    ensures GetField(ctx, key) == if Field(ctx, key).None? then Null else Field(ctx, key).value
  {
    SplitPlain(key);
    WalkOne(ctx, key);
  }

  lemma WalkOne(v: Value, key: string)
    ensures Walk(v, [key]) == if Field(v, key).None? then Null else Field(v, key).value
  {
    var parts := [key];
    assert parts[0] == key && parts[1..] == [];
    if v.Object? {
      var next := if key in v.fields then v.fields[key] else Null;
      assert Walk(v, parts) == Walk(next, parts[1..]) && Walk(next, []) == next;
    }
  }

  /** A dotted path is followed step by step. */
  lemma DottedField(ctx: Value, a: string, b: string)
    ensures GetField(ctx, a + "." + b) == GetField(GetField(ctx, a), b)
  {
    hide Walk, SplitDots;
    SplitConcat(a, b);
    WalkOn(ctx, SplitDots(a), SplitDots(b));
  }

  /** The value inside objects with one key each. */
  function Nest(parts: seq<string>, v: Value): Value
    decreases |parts|
  {
    if parts == [] then v else Object(map[parts[0] := Nest(parts[1..], v)])
  }

  lemma {:induction false} WalkIntoNest(parts: seq<string>, v: Value)
    ensures Walk(Nest(parts, v), parts) == v
    decreases |parts|
  {
    if parts == [] {
    } else {
      WalkIntoNest(parts[1..], v);
    }
  }

  /** A path finds the value that nested objects put there. */
  lemma NestedField(field: string, v: Value)
    ensures GetField(Nest(SplitDots(field), v), field) == v
  {
    WalkIntoNest(SplitDots(field), v);
  }

  // ---------------------------------------------------------------------------------------------------------------
  // Single tests
  // ---------------------------------------------------------------------------------------------------------------

  /** A field counts as false for exactly null, false, zero, and the empty string, array and object. */
  lemma FalsyExactly(ctx: Value, field: string)
    ensures var v := GetField(ctx, field);
            Evaluate(Falsy(field), ctx) <==>
              || v == Null || v == Bool(false) || v == String("") || v == Array([]) || v == Object(map[])
              || (v.Number? && v.n.digits == 0)
    ensures Evaluate(Truthy(field), ctx) <==> !Evaluate(Falsy(field), ctx)
  {
    hide GetField;
    var v := GetField(ctx, field);
    if v.Number? {
      ZeroExactly(v.n);
    }
  }

  lemma ZeroExactly(d: Decimal)
    ensures AsReal(d) == 0.0 <==> d.digits == 0
  {
    ZeroQuotient(d.digits as real, Pow10(d.scale) as real);
  }

  lemma ZeroQuotient(x: real, p: real)
    requires p > 0.0
    ensures x / p == 0.0 <==> x == 0.0
  {
    var q := x / p;
    assert q * p == x;
  }

  predicate Scalar(v: Value) { !v.Array? && !v.Object? }

  /** Equality of values: reflexive and symmetric on scalars, between values of one kind only, never on the others. */
  lemma EqualityLaws(a: Value, b: Value)
    ensures ValuesEqual(a, a) <==> Scalar(a)
    ensures ValuesEqual(a, b) <==> ValuesEqual(b, a)
    ensures a == b && Scalar(a) ==> ValuesEqual(a, b)
    ensures ValuesEqual(a, b) && !a.Number? ==> a == b
    ensures ValuesEqual(a, b) ==> (a.Number? <==> b.Number?)
    ensures a.Number? && b.Number? ==>
              var d := AsReal(a.n) - AsReal(b.n);
              ValuesEqual(a, b) <==> (if d < 0.0 then -d else d) * 4503599627370496.0 < 1.0
  {
    hide AsReal;
  }

  /** `!=` is the complement of `==`, which compares the field's value. */
  lemma EqAndNe(ctx: Value, field: string, v: Value)
    ensures Evaluate(Eq(field, v), ctx) <==> ValuesEqual(GetField(ctx, field), v)
    ensures Evaluate(Ne(field, v), ctx) <==> !Evaluate(Eq(field, v), ctx)
    ensures Scalar(GetField(ctx, field)) ==> Evaluate(Eq(field, GetField(ctx, field)), ctx)
  {
    hide GetField;
    EqualityLaws(GetField(ctx, field), v);
  }

  /**
   On a number, `<` and `>=` exclude each other and one of them holds, likewise `>` and `<=`; at the bound itself the
   two with an equals sign hold; and a lower bound is exceeded whenever a higher one is reached. On any other value
   none of the four holds.
   */
  lemma OrderLaws(ctx: Value, field: string, n: Decimal, higher: Decimal)
    requires AsReal(n) < AsReal(higher)
    ensures var v := GetField(ctx, field);
            var lt, le := Evaluate(Lt(field, n), ctx), Evaluate(Le(field, n), ctx);
            var gt, ge := Evaluate(Gt(field, n), ctx), Evaluate(Ge(field, n), ctx);
            if v.Number? then
              && lt != ge && gt != le && !(lt && gt) && (lt ==> le) && (gt ==> ge)
              && (AsReal(v.n) == AsReal(n) <==> le && ge)
              && (Evaluate(Ge(field, higher), ctx) ==> gt) && (le ==> Evaluate(Lt(field, higher), ctx))
            else !lt && !le && !gt && !ge
  {
    hide GetField, AsReal;
  }

  // ---------------------------------------------------------------------------------------------------------------
  // Guard texts
  // ---------------------------------------------------------------------------------------------------------------

  /** The guard with this text is one, and lets a transition through. */
  predicate TextHolds(text: string, ctx: Value) { Parse(text).Ok? && Evaluate(Parse(text).value, ctx) }

  lemma TextOfTree(lead: string, c: Cst, trail: string, ctx: Value)
    requires Good(c) && Ascii(Text(c)) && Spaces(lead) && Spaces(trail)
    ensures TextHolds(lead + Text(c) + trail, ctx) <==> Evaluate(Erase(c), ctx)
    ensures TextHolds(Text(c), ctx) <==> Evaluate(Erase(c), ctx)
  {
    hide Parse, Text, Good, Erase, Evaluate;
    RoundTrip(lead, c, trail);
    RoundTrip("", c, "");
    assert "" + Text(c) + "" == Text(c);
  }

  /** A further operand of a chain, with the white space around the operator. */
  datatype Link = Link(before: string, after: string, operand: Cst)

  /** The operands with the operator between them. */
  function Joined(first: Cst, more: seq<Link>, op: string): string {
    if more == [] then Text(first)
    else
      var last := more[|more| - 1];
      Joined(first, more[..|more| - 1], op) + last.before + op + last.after + Text(last.operand)
  }

  /** Operands that bind tightly enough for the chain. */
  ghost predicate GoodChain(first: Cst, more: seq<Link>, level: nat) {
    && Good(first) && Level(first) >= level
    && forall k :: 0 <= k < |more| ==>
         && Spaces(more[k].before) && Spaces(more[k].after)
         && Good(more[k].operand) && Level(more[k].operand) >= level
  }

  function Conjunction(first: Cst, more: seq<Link>): Cst {
    if more == [] then first
    else
      var last := more[|more| - 1];
      Both(Conjunction(first, more[..|more| - 1]), last.before, last.after, last.operand)
  }

  function Disjunction(first: Cst, more: seq<Link>): Cst {
    if more == [] then first
    else
      var last := more[|more| - 1];
      Either(Disjunction(first, more[..|more| - 1]), last.before, last.after, last.operand)
  }

  lemma {:induction false} ConjunctionIsTree(first: Cst, more: seq<Link>)
    requires GoodChain(first, more, 2)
    ensures Good(Conjunction(first, more)) && Level(Conjunction(first, more)) >= 1
    ensures Text(Conjunction(first, more)) == Joined(first, more, "&&")
  {
    if more == [] {
    } else {
      ConjunctionIsTree(first, more[..|more| - 1]);
    }
  }

  lemma {:induction false} DisjunctionIsTree(first: Cst, more: seq<Link>)
    requires GoodChain(first, more, 1)
    ensures Good(Disjunction(first, more))
    ensures Text(Disjunction(first, more)) == Joined(first, more, "||")
  {
    if more == [] {
    } else {
      DisjunctionIsTree(first, more[..|more| - 1]);
    }
  }

  lemma ChainStep(l: Cst, last: Link, ctx: Value)
    ensures Evaluate(Erase(Both(l, last.before, last.after, last.operand)), ctx)
       <==> Evaluate(Erase(l), ctx) && Evaluate(Erase(last.operand), ctx)
    ensures Evaluate(Erase(Either(l, last.before, last.after, last.operand)), ctx)
       <==> Evaluate(Erase(l), ctx) || Evaluate(Erase(last.operand), ctx)
  {
    hide GetField, IsTruthy, ValuesEqual, AsReal, EraseCompare;
  }

  lemma {:induction false} AllMustHold(first: Cst, more: seq<Link>, ctx: Value)
    ensures Evaluate(Erase(Conjunction(first, more)), ctx) <==>
              Evaluate(Erase(first), ctx) && forall k :: 0 <= k < |more| ==> Evaluate(Erase(more[k].operand), ctx)
  {
    hide Evaluate, Erase;
    if more == [] {
    } else {
      var n := |more| - 1;
      AllMustHold(first, more[..n], ctx);
      ChainStep(Conjunction(first, more[..n]), more[n], ctx);
      assert forall k :: 0 <= k < n ==> more[..n][k] == more[k];
    }
  }

  lemma {:induction false} OneMustHold(first: Cst, more: seq<Link>, ctx: Value)
    ensures Evaluate(Erase(Disjunction(first, more)), ctx) <==>
              Evaluate(Erase(first), ctx) || exists k :: 0 <= k < |more| && Evaluate(Erase(more[k].operand), ctx)
  {
    hide Evaluate, Erase;
    if more == [] {
    } else {
      var n := |more| - 1;
      OneMustHold(first, more[..n], ctx);
      ChainStep(Disjunction(first, more[..n]), more[n], ctx);
      assert forall k :: 0 <= k < n ==> more[..n][k] == more[k];
    }
  }

  lemma {:induction false} AsciiOperands(first: Cst, more: seq<Link>, op: string)
    requires Ascii(Joined(first, more, op))
    ensures Ascii(Text(first)) && forall k :: 0 <= k < |more| ==> Ascii(Text(more[k].operand))
  {
    hide Text;
    if more == [] {
    } else {
      var n, last := |more| - 1, more[|more| - 1];
      var front := Joined(first, more[..n], op);
      AsciiParts(front, last.before, op, last.after, Text(last.operand));
      AsciiOperands(first, more[..n], op);
      forall k | 0 <= k < |more| ensures Ascii(Text(more[k].operand)) {
        if k < n {
          assert more[..n][k] == more[k];
        }
      }
    }
  }

  lemma AsciiParts(a: string, b: string, c: string, d: string, e: string)
    requires Ascii(a + b + c + d + e)
    ensures Ascii(a) && Ascii(e)
  {
    var s := a + b + c + d + e;
    assert forall i :: 0 <= i < |a| ==> s[i] == a[i];
    assert forall i :: 0 <= i < |e| ==> s[|a| + |b| + |c| + |d| + i] == e[i];
  }

  /**
   Guard texts joined by `&&`, however they are spaced: the whole holds if and only if every operand, read by itself,
   holds.
   */
  lemma ConjunctionHolds(lead: string, first: Cst, more: seq<Link>, trail: string, ctx: Value)
    requires GoodChain(first, more, 2) && Ascii(Joined(first, more, "&&")) && Spaces(lead) && Spaces(trail)
    ensures TextHolds(lead + Joined(first, more, "&&") + trail, ctx) <==>
              TextHolds(Text(first), ctx) && forall k :: 0 <= k < |more| ==> TextHolds(Text(more[k].operand), ctx)
  {
    hide TextHolds, Text, Joined, Good, Erase, Evaluate, Conjunction, Level;
    ConjunctionIsTree(first, more);
    AsciiOperands(first, more, "&&");
    TextOfTree(lead, Conjunction(first, more), trail, ctx);
    TextOfTree("", first, "", ctx);
    forall k | 0 <= k < |more|
      ensures TextHolds(Text(more[k].operand), ctx) <==> Evaluate(Erase(more[k].operand), ctx)
    {
      TextOfTree("", more[k].operand, "", ctx);
    }
    AllMustHold(first, more, ctx);
  }

  /** Guard texts joined by `||`, conjunctions among them: the whole holds if and only if some operand does. */
  lemma DisjunctionHolds(lead: string, first: Cst, more: seq<Link>, trail: string, ctx: Value)
    requires GoodChain(first, more, 1) && Ascii(Joined(first, more, "||")) && Spaces(lead) && Spaces(trail)
    ensures TextHolds(lead + Joined(first, more, "||") + trail, ctx) <==>
              TextHolds(Text(first), ctx) || exists k :: 0 <= k < |more| && TextHolds(Text(more[k].operand), ctx)
  {
    hide TextHolds, Text, Joined, Good, Erase, Evaluate, Disjunction, Level;
    DisjunctionIsTree(first, more);
    AsciiOperands(first, more, "||");
    TextOfTree(lead, Disjunction(first, more), trail, ctx);
    TextOfTree("", first, "", ctx);
    forall k | 0 <= k < |more|
      ensures TextHolds(Text(more[k].operand), ctx) <==> Evaluate(Erase(more[k].operand), ctx)
    {
      TextOfTree("", more[k].operand, "", ctx);
    }
    OneMustHold(first, more, ctx);
  }

  lemma NegatedTree(gap: string, c: Cst, ctx: Value)
    requires Good(c) && Spaces(gap) && Level(c) >= 2
    ensures var d := Negate(gap, c);
            && Good(d) && Text(d) == "!" + gap + Text(c)
            && (Evaluate(Erase(d), ctx) <==> !Evaluate(Erase(c), ctx))
  {
    hide All;
  }

  /** An exclamation mark in front turns a guard around. */
  lemma NegationHolds(c: Cst, gap: string, ctx: Value)
    requires Good(c) && Ascii(Text(c)) && Spaces(gap) && Level(c) >= 2
    ensures TextHolds("!" + gap + Text(c), ctx) <==> !TextHolds(Text(c), ctx)
  {
    hide TextHolds, Text, Good, Erase, Evaluate;
    var d := Negate(gap, c);
    NegatedTree(gap, c, ctx);
    SpacesAreAscii(gap);
    assert Ascii("!");
    hide Ascii, Spaces;
    AsciiJoins("!", gap);
    AsciiJoins("!" + gap, Text(c));
    TextOfTree("", c, "", ctx);
    TextOfTree("", d, "", ctx);
  }

  /** Parentheses leave a guard what it is. */
  lemma ParenthesesHold(c: Cst, open: string, close: string, ctx: Value)
    requires Good(c) && Ascii(Text(c)) && Spaces(open) && Spaces(close)
    ensures TextHolds("(" + open + Text(c) + close + ")", ctx) <==> TextHolds(Text(c), ctx)
  {
    var d := Paren(open, c, close);
    assert Good(d) && Text(d) == "(" + open + Text(c) + close + ")" && Erase(d) == Erase(c);
    hide TextHolds, Text, Good, Erase, Evaluate;
    SpacesAreAscii(open);
    SpacesAreAscii(close);
    assert Ascii("(") && Ascii(")");
    hide Ascii, Spaces;
    AsciiJoins("(", open);
    AsciiJoins("(" + open, Text(c));
    AsciiJoins("(" + open + Text(c), close);
    AsciiJoins("(" + open + Text(c) + close, ")");
    TextOfTree("", c, "", ctx);
    TextOfTree("", d, "", ctx);
  }

  lemma SpacesAreAscii(s: string)
    requires Spaces(s)
    ensures Ascii(s)
  {
    assert forall i :: 0 <= i < |s| ==> IsSpace(s[i]);
  }

  // Comparisons, with the texts that stand for them.

  ghost predicate GoodTest(field: string, before: string, op: Comparator, after: string, lit: Literal) {
    && GoodField(field) && Spaces(before) && Spaces(after) && GoodLiteral(lit) && GoodOperand(op, lit)
    && Ascii(LiteralText(lit))
  }

  function TestText(field: string, before: string, op: string, after: string, lit: string): string {
    "ctx." + field + before + op + after + lit
  }

  lemma TestParses(field: string, before: string, op: Comparator, after: string, lit: Literal, ctx: Value)
    requires GoodTest(field, before, op, after, lit)
    ensures TextHolds(TestText(field, before, OpText(op), after, LiteralText(lit)), ctx)
       <==> Evaluate(EraseCompare(field, op, lit), ctx)
  {
    var c := Compare(field, before, op, after, lit);
    assert Good(c) && Text(c) == TestText(field, before, OpText(op), after, LiteralText(lit));
    assert Erase(c) == EraseCompare(field, op, lit);
    hide TextHolds, Good, Evaluate, LiteralText, Text, Erase, OpText, TestText;
    TestIsAscii(field, before, op, after, lit);
    TextOfTree("", c, "", ctx);
  }

  lemma TestIsAscii(field: string, before: string, op: Comparator, after: string, lit: Literal)
    requires GoodTest(field, before, op, after, lit)
    ensures Ascii(TestText(field, before, OpText(op), after, LiteralText(lit)))
  {
    SpacesAreAscii(before);
    SpacesAreAscii(after);
    FieldIsAscii(field);
    OpIsAscii(op);
    assert Ascii("ctx.");
    hide LiteralText, GoodField, GoodLiteral, GoodOperand, Spaces, OpText;
    AsciiSix("ctx.", field, before, OpText(op), after, LiteralText(lit));
  }

  lemma AsciiSix(a: string, b: string, c: string, d: string, e: string, f: string)
    requires Ascii(a) && Ascii(b) && Ascii(c) && Ascii(d) && Ascii(e) && Ascii(f)
    ensures Ascii(a + b + c + d + e + f)
  {
    hide Ascii;
    AsciiJoins(a, b);
    AsciiJoins(a + b, c);
    AsciiJoins(a + b + c, d);
    AsciiJoins(a + b + c + d, e);
    AsciiJoins(a + b + c + d + e, f);
  }

  lemma OpIsAscii(op: Comparator)
    ensures Ascii(OpText(op))
  {
  }

  lemma AsciiJoins(a: string, b: string)
    requires Ascii(a) && Ascii(b)
    ensures Ascii(a + b)
  {
  }

  lemma FieldIsAscii(field: string)
    requires GoodField(field)
    ensures Ascii(field)
  {
    assert forall i :: 0 <= i < |field| ==> IsFieldChar(field[i]);
  }

  /** What a numeral stands for. */
  function Amount(n: Numeral): real {
    var size := Denoted(n.whole) + Denoted(n.fraction) / Tens(|n.fraction|);
    if n.negative then -size else size
  }

  lemma NumeralIsAscii(n: Numeral)
    requires GoodNumeral(n)
    ensures Ascii(NumeralText(n))
  {
    assert forall i :: 0 <= i < |n.whole| ==> IsDigit(n.whole[i]);
    assert forall i :: 0 <= i < |n.fraction| ==> IsDigit(n.fraction[i]);
  }

  /** The texts of the four comparisons by order, against the amount that the numeral stands for. */
  lemma OrderTexts(field: string, before: string, after: string, n: Numeral, ctx: Value)
    requires GoodField(field) && Spaces(before) && Spaces(after) && GoodNumeral(n)
    ensures var v, text := GetField(ctx, field), NumeralText(n);
            && (TextHolds(TestText(field, before, "<", after, text), ctx) <==> v.Number? && AsReal(v.n) < Amount(n))
            && (TextHolds(TestText(field, before, "<=", after, text), ctx) <==> v.Number? && AsReal(v.n) <= Amount(n))
            && (TextHolds(TestText(field, before, ">", after, text), ctx) <==> v.Number? && AsReal(v.n) > Amount(n))
            && (TextHolds(TestText(field, before, ">=", after, text), ctx) <==> v.Number? && AsReal(v.n) >= Amount(n))
  {
    hide TextHolds, TestText, GetField, AsReal, NumeralText, Denoted, NumeralValue;
    NumeralIsAscii(n);
    NumeralDenotes(n);
    var lit := NumberLit(n);
    TestParses(field, before, LtOp, after, lit, ctx);
    TestParses(field, before, LeOp, after, lit, ctx);
    TestParses(field, before, GtOp, after, lit, ctx);
    TestParses(field, before, GeOp, after, lit, ctx);
  }

  /** What a field must be to equal a literal: the same null, boolean or string, or a number next to the amount. */
  predicate Equals(v: Value, lit: Literal) {
    match lit
    case NullLit => v == Null
    case BoolLit(b) => v == Bool(b)
    case StringLit(raw) => v == String(raw)
    case NumberLit(n) =>
      && v.Number?
      && var d := AsReal(v.n) - Amount(n);
         (if d < 0.0 then -d else d) * 4503599627370496.0 < 1.0
  }

  /** The texts of the two comparisons for equality. */
  lemma EqualityTexts(field: string, before: string, after: string, lit: Literal, ctx: Value)
    requires GoodTest(field, before, EqOp, after, lit)
    ensures var v, text := GetField(ctx, field), LiteralText(lit);
            && (TextHolds(TestText(field, before, "==", after, text), ctx) <==> Equals(v, lit))
            && (TextHolds(TestText(field, before, "!=", after, text), ctx) <==> !Equals(v, lit))
  {
    hide TextHolds, TestText, GetField, LiteralText, AsReal, Amount, NumeralValue;
    TestParses(field, before, EqOp, after, lit, ctx);
    TestParses(field, before, NeOp, after, lit, ctx);
    var v := GetField(ctx, field);
    EqualityLaws(v, LiteralValue(lit));
    if lit.NumberLit? {
      AmountIsValue(lit.n);
    }
  }

  lemma AmountIsValue(n: Numeral)
    requires GoodNumeral(n)
    ensures AsReal(NumeralValue(n)) == Amount(n)
  {
    NumeralDenotes(n);
  }

  /** The text of a field alone. */
  lemma FieldText(field: string, ctx: Value)
    requires GoodField(field)
    ensures TextHolds("ctx." + field, ctx) <==> !Evaluate(Falsy(field), ctx)
  {
    hide GetField, Parse;
    FieldIsAscii(field);
    TextOfTree("", Check(field), "", ctx);
  }
}
