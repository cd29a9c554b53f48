/** Exactly which guards make the parser panic. */
module GuardPanics {
  import opened Common
  import opened Json
  import opened Guard
  import opened GuardParser
  import opened GuardPrinter
  import opened GuardRoundTrip

  ghost predicate IsPanic(e: GuardError) { e.PastEnd? || e.NotFinite? }

  /** A literal at `q` that panics: a string that ends inside an escape, or a number beyond every float. */
  ghost predicate BadLiteral(s: string, q: nat, e: GuardError) {
    q < |s| &&
    match e
    case PastEnd => s[q] == '"' && DanglingEscape(s, q + 1)
    case NotFinite => HasDigits(ScanNumeral(s, q).0) && Overflows(NumeralValue(ScanNumeral(s, q).0))
    case _ => false
  }

  /** The part of a guard up to a literal of an equality: whole operands on its left, and what is still open. */
  datatype Lead =
    | Equate(field: string, before: string, op: Comparator, after: string)
    | Inverted(gap: string, inner: Lead)
    | Opened(open: string, inner: Lead)
    | Conjoined(left: Cst, before: string, after: string, right: Lead)
    | Disjoined(left: Cst, before: string, after: string, right: Lead)

  function LeadText(l: Lead): string {
    match l
    case Equate(field, before, op, after) => "ctx." + field + before + OpText(op) + after
    case Inverted(gap, inner) => "!" + gap + LeadText(inner)
    case Opened(open, inner) => "(" + open + LeadText(inner)
    case Conjoined(left, before, after, right) => Text(left) + before + "&&" + after + LeadText(right)
    case Disjoined(left, before, after, right) => Text(left) + before + "||" + after + LeadText(right)
  }

  function LeadLevel(l: Lead): nat {
    match l
    case Disjoined(_, _, _, _) => 0
    case Conjoined(_, _, _, _) => 1
    case _ => 2
  }

  ghost predicate GoodLead(l: Lead) {
    match l
    case Equate(field, before, op, after) =>
      GoodField(field) && Spaces(before) && Spaces(after) && (op.EqOp? || op.NeOp?)
    case Inverted(gap, inner) => Spaces(gap) && GoodLead(inner) && LeadLevel(inner) >= 2
    case Opened(open, inner) => Spaces(open) && GoodLead(inner)
    case Conjoined(left, before, after, right) =>
      && Spaces(before) && Spaces(after) && Good(left) && Level(left) >= 1
      && GoodLead(right) && LeadLevel(right) >= 2
    case Disjoined(left, before, after, right) =>
      Spaces(before) && Spaces(after) && Good(left) && GoodLead(right) && LeadLevel(right) >= 1
  }

  /** The lead stands at `start` and a literal that panics stands behind it. */
  ghost predicate Doomed(s: string, start: nat, l: Lead, e: GuardError) {
    GoodLead(l) && Stands(s, start, LeadText(l)) && BadLiteral(s, start + |LeadText(l)|, e)
  }

  // ---------------------------------------------------------------------------------------------------------------
  // Literals
  // ---------------------------------------------------------------------------------------------------------------

  lemma NumeralStart(s: string, q: nat)
    requires q < |s| && HasDigits(ScanNumeral(s, q).0)
    ensures s[q] == '-' || s[q] == '.' || IsDigit(s[q])
  {
    hide DigitsValue;
    RunChars(IsDigit, s, q);
  }

  lemma {:induction false} ScanErrors(s: string, pos: nat)
    ensures ScanString(s, pos).Bad? ==> ScanString(s, pos).error.PastEnd? || ScanString(s, pos).error.UnterminatedString?
    decreases |s| + 2 - pos
  {
    if pos < |s| && s[pos] != '"' {
      ScanErrors(s, if s[pos] == '\\' then pos + 2 else pos + 1);
    }
  }

  lemma LiteralPanics(s: string, q: nat, e: GuardError)
    requires q < |s| && !IsSpace(s[q]) && IsPanic(e)
    ensures ParseValue(s, q) == Bad(e) <==> BadLiteral(s, q, e)
  {
    NoSkip(s, q);
    PeekKeywords(s, q);
    ScanPanics(s, q + 1);
    ScanErrors(s, q + 1);
    if HasDigits(ScanNumeral(s, q).0) {
      NumeralStart(s, q);
    }
    hide ScanString, ScanNumeral, NumeralValue, Overflows, DanglingEscape, SkipSpace;
  }

  lemma BadLiteralStart(s: string, q: nat, e: GuardError)
    requires BadLiteral(s, q, e)
    ensures !IsSpace(s[q]) && s[q] != '='
  {
    if e.NotFinite? {
      NumeralStart(s, q);
    }
  }

  // ---------------------------------------------------------------------------------------------------------------
  // A doomed lead panics
  // ---------------------------------------------------------------------------------------------------------------

  lemma EquatePieces(s: string, pos: nat, l: Lead)
    requires l.Equate? && Stands(s, pos, LeadText(l))
    ensures var p1 := pos + 4 + |l.field|;
            var p2 := p1 + |l.before|;
            && Stands(s, pos, "ctx." + l.field) && Stands(s, p1, l.before) && Stands(s, p2, OpText(l.op))
            && Stands(s, p2 + |OpText(l.op)|, l.after)
            && pos + |LeadText(l)| == p2 + |OpText(l.op)| + |l.after|
  {
    hide Stands, OpText;
    var head, op := "ctx." + l.field, OpText(l.op);
    StandsSplit(s, pos, head + l.before + op, l.after);
    StandsSplit(s, pos, head + l.before, op);
    StandsSplit(s, pos, head, l.before);
  }

  lemma EquatePanics(s: string, pos: nat, l: Lead, e: GuardError)
    requires l.Equate? && Doomed(s, pos, l, e)
    ensures ParseComparison(s, pos) == Bad(e) && PeekChar(s, pos, 'c')
  {
    hide ParseField, ParseOperator, ParseValue, LeadText, Stands, SkipSpace, BadLiteral;
    EquatePieces(s, pos, l);
    var p1 := pos + 4 + |l.field|;
    var p2 := p1 + |l.before|;
    var p3 := p2 + |OpText(l.op)|;
    var q := p3 + |l.after|;
    InsideText(s, q, e);
    BadLiteralStart(s, q, e);
    OpTextStarts(l.op);
    StandsChar(s, p2, OpText(l.op), 0);
    GapBreaks(s, p1, l.before);
    ParseFieldStands(s, pos, l.field);
    SkipStands(s, p1, l.before);
    CompareStart(s, pos, l.field);
    SkipStands(s, p3, l.after);
    LiteralPanics(s, q, e);
    EqualityStands(s, l.field, p2, l.op);
  }

  lemma InsideText(s: string, q: nat, e: GuardError)
    requires BadLiteral(s, q, e)
    ensures q < |s| && IsPanic(e)
  {
  }

  lemma EqualityStands(s: string, field: string, p: nat, op: Comparator)
    requires Stands(s, p, OpText(op)) && (op.EqOp? || op.NeOp?)
    ensures p + 2 <= |s|
    ensures forall e :: ParseValue(s, SkipSpace(s, p + 2)) == Bad(e) ==> ParseOperator(s, field, p) == Bad(e)
  {
    hide ParseValue, SkipSpace;
  }

  lemma {:induction false} LeadStarts(l: Lead)
    requires GoodLead(l)
    ensures LeadText(l) != "" && LeadText(l)[0] in {'c', '!', '('}
  {
    hide GoodLead;
    match l
    case Conjoined(left, _, _, _) => TextStarts(left);
    case Disjoined(left, _, _, _) => TextStarts(left);
    case _ =>
  }

  lemma LeadStartsAt(s: string, pos: nat, l: Lead)
    requires GoodLead(l) && Stands(s, pos, LeadText(l))
    ensures pos < |s| && s[pos] == LeadText(l)[0] && !IsSpace(s[pos]) && SkipSpace(s, pos) == pos
  {
    hide LeadText, GoodLead;
    LeadStarts(l);
    StandsChar(s, pos, LeadText(l), 0);
    NoSkip(s, pos);
  }

  lemma PrefixPieces(s: string, pos: nat, mark: string, gap: string, rest: string)
    requires Stands(s, pos, mark + gap + rest) && |mark| == 1
    ensures Stands(s, pos + 1, gap) && Stands(s, pos + 1 + |gap|, rest) && PeekChar(s, pos, mark[0])
  {
    hide Stands;
    StandsSplit(s, pos, mark + gap, rest);
    StandsSplit(s, pos, mark, gap);
    StandsChar(s, pos, mark, 0);
  }

  lemma InvertedDoomed(s: string, pos: nat, l: Lead, e: GuardError)
    requires Doomed(s, pos, l, e) && l.Inverted?
    ensures var from := pos + 1 + |l.gap|;
            && PeekChar(s, pos, '!') && SkipSpace(s, pos) == pos && SkipSpace(s, pos + 1) == from
            && Doomed(s, from, l.inner, e) && LeadLevel(l.inner) >= 2
  {
    hide SkipSpace, Stands, BadLiteral;
    PrefixPieces(s, pos, "!", l.gap, LeadText(l.inner));
    LeadStartsAt(s, pos, l);
    LeadStartsAt(s, pos + 1 + |l.gap|, l.inner);
    SkipStands(s, pos + 1, l.gap);
  }

  lemma OpenedDoomed(s: string, pos: nat, l: Lead, e: GuardError)
    requires Doomed(s, pos, l, e) && l.Opened?
    ensures var from := pos + 1 + |l.open|;
            && PeekChar(s, pos, '(') && SkipSpace(s, pos + 1) == from && Doomed(s, from, l.inner, e)
  {
    hide SkipSpace, Stands, BadLiteral;
    PrefixPieces(s, pos, "(", l.open, LeadText(l.inner));
    LeadStartsAt(s, pos + 1 + |l.open|, l.inner);
    SkipStands(s, pos + 1, l.open);
  }

  lemma UnaryStep(s: string, pos: nat, from: nat, e: GuardError)
    requires PeekChar(s, pos, '!') && SkipSpace(s, pos) == pos && SkipSpace(s, pos + 1) == from
    requires ParseUnary(s, from) == Bad(e)
    ensures ParseUnary(s, pos) == Bad(e)
  {
    hide SkipSpace, ParsePrimary;
  }

  lemma {:induction false} UnaryLead(s: string, pos: nat, l: Lead, e: GuardError)
    requires Doomed(s, pos, l, e) && LeadLevel(l) >= 2
    ensures ParseUnary(s, pos) == Bad(e)
    decreases l, 0
  {
    hide ParseUnary, ParsePrimary, ParseComparison, ParseOr, SkipSpace, Doomed;
    match l
    case Equate(_, _, _, _) =>
      EquatePanics(s, pos, l, e);
      UnaryGoesDown(s, pos);
    case Inverted(gap, inner) =>
      InvertedDoomed(s, pos, l, e);
      UnaryLead(s, pos + 1 + |gap|, inner, e);
      UnaryStep(s, pos, pos + 1 + |gap|, e);
    case Opened(open, inner) =>
      OpenedDoomed(s, pos, l, e);
      OrLead(s, pos + 1 + |open|, inner, e);
      LeadingSpace(s, pos + 1);
      PrimaryFails(s, pos, e);
      UnaryGoesDown(s, pos);
  }

  lemma PrimaryFails(s: string, pos: nat, e: GuardError)
    requires PeekChar(s, pos, '(') && ParseOr(s, pos + 1) == Bad(e)
    ensures ParsePrimary(s, pos) == Bad(e)
  {
    hide ParseOr, ParseComparison;
    NoSkip(s, pos);
  }

  /** The operand on the left of a doomed lead, the operator, and the doomed rest. */
  lemma BinaryDoomed(s: string, pos: nat, l: Lead, e: GuardError) returns (from: nat)
    requires Doomed(s, pos, l, e) && (l.Conjoined? || l.Disjoined?)
    ensures var p1 := pos + |Text(l.left)|;
            var p2 := p1 + |l.before|;
            && from == p2 + 2 + |l.after| && Doomed(s, from, l.right, e)
            && Good(l.left) && Stands(s, pos, Text(l.left)) && Follow(s, p1)
            && p2 < |s| && SkipSpace(s, p1) == p2 && SkipSpace(s, p2 + 2) == from
            && Peek(s, p2, if l.Conjoined? then "&&" else "||")
  {
    hide SkipSpace, Stands, Follow, BadLiteral, Text, Good;
    LeadStarts(l.right);
    var op := if l.Conjoined? then "&&" else "||";
    BinaryPieces(s, pos, Text(l.left), l.before, op, l.after, LeadText(l.right));
    from := pos + |Text(l.left)| + |l.before| + 2 + |l.after|;
  }

  lemma {:induction false} AndLead(s: string, pos: nat, l: Lead, e: GuardError)
    requires Doomed(s, pos, l, e) && LeadLevel(l) >= 1
    ensures ParseAnd(s, pos) == Bad(e)
    decreases l, 1
  {
    hide ParseUnary, SkipSpace, Stands, Follow, Doomed, Text, Good;
    if l.Conjoined? {
      var from := BinaryDoomed(s, pos, l, e);
      ConjoinedLevels(s, pos, l, e);
      AndStands(s, pos, l.left);
      UnaryLead(s, from, l.right, e);
    } else {
      UnaryLead(s, pos, l, e);
    }
  }

  lemma ConjoinedLevels(s: string, pos: nat, l: Lead, e: GuardError)
    requires Doomed(s, pos, l, e)
    ensures l.Conjoined? ==> Level(l.left) >= 1 && LeadLevel(l.right) >= 2
    ensures l.Disjoined? ==> LeadLevel(l.right) >= 1
  {
    hide Stands, BadLiteral, Good, LeadText;
  }

  lemma {:induction false} OrLead(s: string, pos: nat, l: Lead, e: GuardError)
    requires Doomed(s, pos, l, e)
    ensures ParseOr(s, pos) == Bad(e)
    decreases l, 2
  {
    hide ParseAnd, SkipSpace, Stands, Follow, Doomed, Text, Good;
    if l.Disjoined? {
      var from := BinaryDoomed(s, pos, l, e);
      ConjoinedLevels(s, pos, l, e);
      PeekFirst(s, pos + |Text(l.left)| + |l.before|, "||");
      OrStands(s, pos, l.left);
      AndLead(s, from, l.right, e);
    } else {
      AndLead(s, pos, l, e);
    }
  }

  // ---------------------------------------------------------------------------------------------------------------
  // Whatever panics is doomed
  // ---------------------------------------------------------------------------------------------------------------

  /** Only the literal of an equality can panic. */
  lemma OperatorPanics(s: string, field: string, p: nat, e: GuardError)
    requires p <= |s| && IsPanic(e) && ParseOperator(s, field, p) == Bad(e)
    ensures p + 2 <= |s| && ParseValue(s, SkipSpace(s, p + 2)) == Bad(e)
    ensures Peek(s, p, "==") || Peek(s, p, "!=")
  {
    hide ParseValue, SkipSpace, ScanNumeral;
  }

  lemma ValueIsThere(s: string, q: nat, e: GuardError)
    requires q <= |s| && IsPanic(e) && ParseValue(s, q) == Bad(e)
    ensures SkipSpace(s, q) < |s|
  {
    assert ScanNumeral(s, |s|).0 == Numeral(false, "", false, "");
    SkipTwice(s, q);
    hide ScanString, ScanNumeral;
  }

  lemma ComparisonPanics(s: string, pos: nat, e: GuardError) returns (l: Lead)
    requires pos <= |s| && IsPanic(e) && ParseComparison(s, pos) == Bad(e)
    ensures Doomed(s, SkipSpace(s, pos), l, e) && LeadLevel(l) == 2
  {
    hide ParseOperator, ParseValue, SkipSpace, Stands, BadLiteral;
    var start := SkipSpace(s, pos);
    FieldSound(s, start);
    var field, p := ParseField(s, start).value, ParseField(s, start).pos;
    hide ParseField;
    var p2 := SkipSpace(s, p);
    SkipIsBlank(s, p);
    BlankGap(s, p, p2);
    OperatorPanics(s, field, p2, e);
    var q := SkipSpace(s, p2 + 2);
    SkipTwice(s, p2 + 2);
    SkipIsBlank(s, p2 + 2);
    BlankGap(s, p2 + 2, q);
    ValueIsThere(s, q, e);
    NonSpaceAt(s, p2 + 2);
    LiteralPanics(s, q, e);
    var op := if Peek(s, p2, "==") then EqOp else NeOp;
    PeekStands(s, p2, OpText(op));
    l := Equate(field, s[p..p2], op, s[p2 + 2..q]);
    EquateJoins(s, start, l);
  }

  lemma NonSpaceAt(s: string, pos: nat)
    requires pos <= |s| && SkipSpace(s, pos) < |s|
    ensures !IsSpace(s[SkipSpace(s, pos)])
  {
    RunChars(IsSpace, s, pos);
  }

  lemma EquateJoins(s: string, pos: nat, l: Lead)
    requires l.Equate?
    requires var p1 := pos + 4 + |l.field|;
             var p2 := p1 + |l.before|;
             && Stands(s, pos, "ctx." + l.field) && Stands(s, p1, l.before) && Stands(s, p2, OpText(l.op))
             && Stands(s, p2 + |OpText(l.op)|, l.after)
    ensures Stands(s, pos, LeadText(l))
    ensures pos + |LeadText(l)| == pos + 4 + |l.field| + |l.before| + |OpText(l.op)| + |l.after|
  {
    hide Stands, OpText;
    var head, op := "ctx." + l.field, OpText(l.op);
    StandsSplit(s, pos, head, l.before);
    StandsSplit(s, pos, head + l.before, op);
    StandsSplit(s, pos, head + l.before + op, l.after);
  }

  lemma PrefixJoins(s: string, pos: nat, mark: char, gap: string, rest: string)
    requires PeekChar(s, pos, mark) && Stands(s, pos + 1, gap) && Stands(s, pos + 1 + |gap|, rest)
    ensures Stands(s, pos, [mark] + gap + rest)
  {
    hide Stands;
    CharStands(s, pos, mark);
    StandsSplit(s, pos, [mark], gap);
    StandsSplit(s, pos, [mark] + gap, rest);
  }

  lemma InvertedJoins(s: string, start: nat, next: nat, inner: Lead, e: GuardError)
    requires PeekChar(s, start, '!') && next == SkipSpace(s, start + 1)
    requires Doomed(s, next, inner, e) && LeadLevel(inner) == 2
    ensures Doomed(s, start, Inverted(s[start + 1..next], inner), e)
  {
    hide SkipSpace, Stands, BadLiteral, Blank;
    SkipIsBlank(s, start + 1);
    BlankGap(s, start + 1, next);
    PrefixJoins(s, start, '!', s[start + 1..next], LeadText(inner));
  }

  lemma OpenedJoins(s: string, start: nat, next: nat, inner: Lead, e: GuardError)
    requires PeekChar(s, start, '(') && next == SkipSpace(s, start + 1) && Doomed(s, next, inner, e)
    ensures Doomed(s, start, Opened(s[start + 1..next], inner), e)
  {
    hide SkipSpace, Stands, BadLiteral, Blank;
    SkipIsBlank(s, start + 1);
    BlankGap(s, start + 1, next);
    PrefixJoins(s, start, '(', s[start + 1..next], LeadText(inner));
  }

  lemma {:induction false} UnaryPanics(s: string, pos: nat, e: GuardError) returns (l: Lead)
    requires pos <= |s| && IsPanic(e) && ParseUnary(s, pos) == Bad(e)
    ensures Doomed(s, SkipSpace(s, pos), l, e) && LeadLevel(l) == 2
    decreases |s| - pos, 2
  {
    hide ParsePrimary, SkipSpace, Doomed;
    var start := SkipSpace(s, pos);
    SkipTwice(s, pos);
    if PeekChar(s, start, '!') {
      var next := SkipSpace(s, start + 1);
      SkipTwice(s, start + 1);
      var inner := UnaryPanics(s, next, e);
      l := Inverted(s[start + 1..next], inner);
      InvertedJoins(s, start, next, inner, e);
    } else {
      l := PrimaryPanics(s, start, e);
    }
  }

  lemma {:induction false} PrimaryPanics(s: string, pos: nat, e: GuardError) returns (l: Lead)
    requires pos <= |s| && IsPanic(e) && ParsePrimary(s, pos) == Bad(e)
    ensures Doomed(s, SkipSpace(s, pos), l, e) && LeadLevel(l) == 2
    decreases |s| - pos, 1
  {
    hide ParseComparison, ParseOr, SkipSpace, Doomed;
    var start := SkipSpace(s, pos);
    SkipTwice(s, pos);
    if PeekChar(s, start, '(') {
      var inner := OrPanics(s, start + 1, e);
      var next := SkipSpace(s, start + 1);
      l := Opened(s[start + 1..next], inner);
      OpenedJoins(s, start, next, inner, e);
    } else {
      l := ComparisonPanics(s, start, e);
    }
  }

  lemma {:induction false} AndPanics(s: string, pos: nat, e: GuardError) returns (l: Lead)
    requires pos <= |s| && IsPanic(e) && ParseAnd(s, pos) == Bad(e)
    ensures Doomed(s, SkipSpace(s, pos), l, e) && LeadLevel(l) >= 1
    decreases |s| - pos, 3
  {
    hide ParseUnary, AndLoop, SkipSpace, Doomed;
    if ParseUnary(s, pos).Bad? {
      l := UnaryPanics(s, pos, e);
    } else {
      var first := UnarySound(s, pos);
      var p := ParseUnary(s, pos).pos;
      SkipIsBlank(s, p);
      BlankJoins(s, SkipSpace(s, pos) + |Text(first)|, p, SkipSpace(s, p));
      l := AndLoopPanics(s, SkipSpace(s, pos), first, SkipSpace(s, p), e);
    }
  }

  lemma ReadsWithin(s: string, start: nat, c: Cst, pos: nat)
    requires Reads(s, start, c, pos)
    ensures start + |Text(c)| <= pos <= |s|
  {
  }

  /** Two texts with an operator between them, and white space around it. */
  lemma GapsJoin(s: string, start: nat, left: string, pos: nat, op: string, right: string)
    requires Stands(s, start, left) && Blank(s, start + |left|, pos) && |op| == 2 && Peek(s, pos, op)
    requires Stands(s, SkipSpace(s, pos + 2), right)
    ensures var from := SkipSpace(s, pos + 2);
            && start + |left| <= pos <= |s|
            && var before, after := s[start + |left|..pos], s[pos + 2..from];
               && Spaces(before) && Spaces(after) && Stands(s, start, left + before + op + after + right)
               && start + |left + before + op + after + right| == from + |right|
  {
    hide Stands, SkipSpace;
    var from := SkipSpace(s, pos + 2);
    SkipIsBlank(s, pos + 2);
    BlankGap(s, pos + 2, from);
    BlankGap(s, start + |left|, pos);
    PeekStands(s, pos, op);
    hide Blank, Spaces;
    BinaryJoins(s, start, left, s[start + |left|..pos], op, s[pos + 2..from], right);
  }

  lemma SkipAfter(s: string, from: nat, p: nat)
    requires Blank(s, from, p)
    ensures Blank(s, from, SkipSpace(s, p))
  {
    hide SkipSpace;
    SkipIsBlank(s, p);
    BlankJoins(s, from, p, SkipSpace(s, p));
  }

  lemma AndJoinsLead(s: string, start: nat, left: Cst, pos: nat, right: Lead, e: GuardError)
    requires Reads(s, start, left, pos) && Peek(s, pos, "&&")
    requires Doomed(s, SkipSpace(s, pos + 2), right, e) && LeadLevel(right) == 2 && Level(left) >= 1
    ensures Doomed(s, start, Conjoined(left, s[start + |Text(left)|..pos], s[pos + 2..SkipSpace(s, pos + 2)], right), e)
  {
    hide SkipSpace, Stands, BadLiteral, Blank, Text, Good, Spaces;
    GapsJoin(s, start, Text(left), pos, "&&", LeadText(right));
  }

  lemma BothIs(l: Cst, before: string, after: string, r: Cst)
    requires Good(l) && Good(r) && Spaces(before) && Spaces(after) && Level(l) >= 1 && Level(r) >= 2
    ensures Good(Both(l, before, after, r)) && Text(Both(l, before, after, r)) == Text(l) + before + "&&" + after + Text(r)
  {
    hide Spaces;
  }

  lemma AndJoinsTree(s: string, start: nat, left: Cst, pos: nat, right: Cst, p: nat)
    requires Reads(s, start, left, pos) && Peek(s, pos, "&&")
    requires Reads(s, SkipSpace(s, pos + 2), right, p) && Level(right) == 2 && Level(left) >= 1
    ensures Reads(s, start, Both(left, s[start + |Text(left)|..pos], s[pos + 2..SkipSpace(s, pos + 2)], right),
                  SkipSpace(s, p))
  {
    hide SkipSpace, Stands, Blank, Spaces, Text, Good;
    GapsJoin(s, start, Text(left), pos, "&&", Text(right));
    BothIs(left, s[start + |Text(left)|..pos], s[pos + 2..SkipSpace(s, pos + 2)], right);
    SkipAfter(s, SkipSpace(s, pos + 2) + |Text(right)|, p);
  }

  lemma {:induction false} AndLoopPanics(s: string, start: nat, left: Cst, pos: nat, e: GuardError) returns (l: Lead)
    requires Reads(s, start, left, pos) && Level(left) >= 1 && IsPanic(e) && AndLoop(s, pos, Erase(left)) == Bad(e)
    ensures Doomed(s, start, l, e) && LeadLevel(l) >= 1
    decreases |s| - pos, 0
  {
    hide ParseUnary, SkipSpace, Reads, Doomed;
    var end := start + |Text(left)|;
    ReadsWithin(s, start, left, pos);
    var from := SkipSpace(s, pos + 2);
    SkipTwice(s, pos + 2);
    if ParseUnary(s, from).Bad? {
      var right := UnaryPanics(s, from, e);
      l := Conjoined(left, s[end..pos], s[pos + 2..from], right);
      AndJoinsLead(s, start, left, pos, right, e);
    } else {
      var right := UnarySound(s, from);
      var p := ParseUnary(s, from).pos;
      AndJoinsTree(s, start, left, pos, right, p);
      l := AndLoopPanics(s, start, Both(left, s[end..pos], s[pos + 2..from], right), SkipSpace(s, p), e);
    }
  }

  lemma {:induction false} OrPanics(s: string, pos: nat, e: GuardError) returns (l: Lead)
    requires pos <= |s| && IsPanic(e) && ParseOr(s, pos) == Bad(e)
    ensures Doomed(s, SkipSpace(s, pos), l, e)
    decreases |s| - pos, 4
  {
    hide ParseAnd, OrLoop, SkipSpace, Doomed;
    if ParseAnd(s, pos).Bad? {
      l := AndPanics(s, pos, e);
    } else {
      var first := AndSound(s, pos);
      var p := ParseAnd(s, pos).pos;
      SkipIsBlank(s, p);
      BlankJoins(s, SkipSpace(s, pos) + |Text(first)|, p, SkipSpace(s, p));
      l := OrLoopPanics(s, SkipSpace(s, pos), first, SkipSpace(s, p), e);
    }
  }

  lemma OrJoinsLead(s: string, start: nat, left: Cst, pos: nat, right: Lead, e: GuardError)
    requires Reads(s, start, left, pos) && Peek(s, pos, "||")
    requires Doomed(s, SkipSpace(s, pos + 2), right, e) && LeadLevel(right) >= 1
    ensures Doomed(s, start, Disjoined(left, s[start + |Text(left)|..pos], s[pos + 2..SkipSpace(s, pos + 2)], right), e)
  {
    hide SkipSpace, Stands, BadLiteral, Blank, Text, Good, Spaces;
    GapsJoin(s, start, Text(left), pos, "||", LeadText(right));
  }

  lemma EitherIs(l: Cst, before: string, after: string, r: Cst)
    requires Good(l) && Good(r) && Spaces(before) && Spaces(after) && Level(r) >= 1
    ensures Good(Either(l, before, after, r)) && Text(Either(l, before, after, r)) == Text(l) + before + "||" + after + Text(r)
  {
    hide Spaces;
  }

  lemma OrJoinsTree(s: string, start: nat, left: Cst, pos: nat, right: Cst, p: nat)
    requires Reads(s, start, left, pos) && Peek(s, pos, "||")
    requires Reads(s, SkipSpace(s, pos + 2), right, p) && Level(right) >= 1
    ensures Reads(s, start, Either(left, s[start + |Text(left)|..pos], s[pos + 2..SkipSpace(s, pos + 2)], right),
                  SkipSpace(s, p))
  {
    hide SkipSpace, Stands, Blank, Spaces, Text, Good;
    GapsJoin(s, start, Text(left), pos, "||", Text(right));
    EitherIs(left, s[start + |Text(left)|..pos], s[pos + 2..SkipSpace(s, pos + 2)], right);
    SkipAfter(s, SkipSpace(s, pos + 2) + |Text(right)|, p);
  }

  lemma {:induction false} OrLoopPanics(s: string, start: nat, left: Cst, pos: nat, e: GuardError) returns (l: Lead)
    requires Reads(s, start, left, pos) && IsPanic(e) && OrLoop(s, pos, Erase(left)) == Bad(e)
    ensures Doomed(s, start, l, e)
    decreases |s| - pos, 0
  {
    hide ParseAnd, SkipSpace, Reads, Doomed;
    var end := start + |Text(left)|;
    ReadsWithin(s, start, left, pos);
    var from := SkipSpace(s, pos + 2);
    SkipTwice(s, pos + 2);
    if ParseAnd(s, from).Bad? {
      var right := AndPanics(s, from, e);
      l := Disjoined(left, s[end..pos], s[pos + 2..from], right);
      OrJoinsLead(s, start, left, pos, right, e);
    } else {
      var right := AndSound(s, from);
      var p := ParseAnd(s, from).pos;
      OrJoinsTree(s, start, left, pos, right, p);
      l := OrLoopPanics(s, start, Either(left, s[end..pos], s[pos + 2..from], right), SkipSpace(s, p), e);
    }
  }

  // ---------------------------------------------------------------------------------------------------------------
  // The entry point
  // ---------------------------------------------------------------------------------------------------------------

  ghost predicate PanicsAs(input: string, e: GuardError) {
    exists l :: Doomed(Trim(input), 0, l, e)
  }

  /**
   Parsing a guard panics if and only if its trimmed text begins with whole operands that lead to the literal of an
   equality, and that literal is a string that ends inside an escape or a number beyond every float.
   */
  lemma PanicsExactly(input: string, e: GuardError)
    requires Ascii(input) && IsPanic(e)
    ensures Parse(input) == Err(e) <==> PanicsAs(input, e)
  {
    hide ParseOr, SkipSpace, Doomed;
    var s := Trim(input);
    TrimStarts(input);
    if ParseOr(s, 0) == Bad(e) {
      var l := OrPanics(s, 0, e);
    }
    if l :| Doomed(s, 0, l, e) {
      OrLead(s, 0, l, e);
      DoomedIsText(s, l, e);
    }
  }

  lemma DoomedIsText(s: string, l: Lead, e: GuardError)
    requires Doomed(s, 0, l, e)
    ensures s != ""
  {
  }

  /** A guard whose trimmed text does not end in a backslash never makes the parser leave its input. */
  lemma ParseStaysInside(input: string)
    requires Ascii(input) && NoTrailingBackslash(Trim(input))
    ensures Parse(input) != Err(PastEnd)
  {
    hide Doomed, LeadText, GoodLead, Trim;
    PanicsExactly(input, PastEnd);
    var s := Trim(input);
    forall l ensures !Doomed(s, 0, l, PastEnd) { EndsInBackslash(s, l); }
  }

  lemma EndsInBackslash(s: string, l: Lead)
    requires NoTrailingBackslash(s)
    ensures !Doomed(s, 0, l, PastEnd)
  {
    hide LeadText, GoodLead;
  }

  // ---------------------------------------------------------------------------------------------------------------
  // A number that is too long
  // ---------------------------------------------------------------------------------------------------------------

  lemma {:induction false} DigitsAtLeast(digits: string)
    requires digits != "" && All(IsDigit, digits) && digits[0] != '0'
    ensures DigitsValue(digits) >= Pow10(|digits| - 1)
  {
    var n := |digits| - 1;
    if n == 0 {
      assert digits[..0] == "" && Pow10(0) == 1;
      assert IsDigit(digits[0]);
    } else {
      assert digits[..n][0] == digits[0];
      DigitsAtLeast(digits[..n]);
      assert Pow10(n) == 10 * Pow10(n - 1);
    }
  }

  lemma {:induction false} TenToEight(k: nat)
    ensures Pow10(k) >= Pow2(3 * k)
  {
    if k == 0 {
    } else {
      TenToEight(k - 1);
      assert Pow2(3 * k) == 2 * Pow2(3 * k - 1) == 4 * Pow2(3 * k - 2) == 8 * Pow2(3 * k - 3);
    }
  }

  lemma {:induction false} PowersGrow(j: nat, k: nat)
    requires j <= k
    ensures Pow10(j) <= Pow10(k) && Pow2(j) <= Pow2(k)
  {
    if j < k {
      PowersGrow(j, k - 1);
    } else {
      assert j == k;
    }
  }

  lemma LongOverflows(whole: string)
    requires |whole| >= 343 && All(IsDigit, whole) && whole[0] != '0'
    ensures Overflows(NumeralValue(Numeral(false, whole, false, "")))
  {
    hide Pow10, Pow2, DigitsValue, All;
    var v := DigitsValue(whole);
    assert whole + "" == whole;
    NormalKeeps(Decimal(v, 0));
    DigitsAtLeast(whole);
    PowersGrow(342, |whole| - 1);
    TenToEight(342);
    PowersGrow(1024, 3 * 342);
    NoScale(v);
  }

  lemma NoScale(v: int)
    ensures AsReal(Decimal(v, 0)) == v as real
  {
  }

  /** Comparing a field for equality with a number of 343 digits or more panics. */
  lemma LongNumberPanics(whole: string)
    requires |whole| >= 343 && All(IsDigit, whole) && whole[0] != '0'
    ensures ParseOr("ctx.a==" + whole, 0) == Bad(NotFinite)
  {
    hide NumeralValue, Overflows, ParseOr, Run, All;
    var s := "ctx.a==" + whole;
    assert LeadText(Equate("a", "", EqOp, "")) == "ctx.a==";
    assert s[7..] == whole;
    NumeralAtEnd(s, whole);
    LongOverflows(whole);
    assert Doomed(s, 0, Equate("a", "", EqOp, ""), NotFinite) by {
      assert All(IsFieldChar, "a") && Spaces("") by { OneField(); }
      assert s[0..7] == "ctx.a==";
    }
    OrLead(s, 0, Equate("a", "", EqOp, ""), NotFinite);
  }

  lemma OneField()
    ensures All(IsFieldChar, "a") && Spaces("")
  {
  }

  lemma NumeralAtEnd(s: string, whole: string)
    requires whole != "" && All(IsDigit, whole) && |s| == 7 + |whole| && s[7..] == whole
    ensures ScanNumeral(s, 7).0 == Numeral(false, whole, false, "")
  {
    assert s[7] == whole[0];
    RunStands(IsDigit, s, 7, whole);
    hide Run;
    assert s[7..7 + |whole|] == whole;
  }
}
