/** The grammar is unambiguous: a text has at most one syntax tree.  What the parser emits for a text is
    therefore determined by the text. */
module Unambiguous {
  import opened Common
  import opened Syntax
  import opened Grammar
  import opened Classdefs

  // ----- names and literals -----

  lemma {:induction false} NamesOne(a: seq<string>, b: seq<string>, ts: Tokens)
    requires EatNames(a, ts).Some? && Head(EatNames(a, ts).value).sym != Identifier
    requires EatNames(b, ts).Some? && Head(EatNames(b, ts).value).sym != Identifier
    ensures a == b
    decreases |a|
  {
    if a != [] && b != [] {
      NamesOne(a[1..], b[1..], ts[1..]);
      assert a == [a[0]] + a[1..] && b == [b[0]] + b[1..];
    }
  }

  lemma {:induction false} ParamsOne(a: seq<string>, b: seq<string>, ts: Tokens)
    requires EatParams(a, ts).Some? && Head(EatParams(a, ts).value).sym != Colon
    requires EatParams(b, ts).Some? && Head(EatParams(b, ts).value).sym != Colon
    ensures a == b
    decreases |a|
  {
    if a != [] && b != [] {
      ParamsOne(a[1..], b[1..], ts[1..][1..]);
      assert a == [a[0]] + a[1..] && b == [b[0]] + b[1..];
    }
  }

  lemma {:induction false} TargetsOne(a: seq<string>, b: seq<string>, ts: Tokens)
    requires EatTargets(a, ts).Some? && Head(Rest(EatTargets(a, ts).value)).sym != Assign
    requires EatTargets(b, ts).Some? && Head(Rest(EatTargets(b, ts).value)).sym != Assign
    ensures a == b
    decreases |a|
  {
    if a != [] && b != [] {
      TargetsOne(a[1..], b[1..], ts[1..][1..]);
      assert a == [a[0]] + a[1..] && b == [b[0]] + b[1..];
    }
  }

  lemma {:induction false} LiteralOne(a: Literal, i: nat, b: Literal, j: nat, ts: Tokens)
    requires EatLiteral(a, i, ts).Some? && EatLiteral(b, j, ts).Some?
    ensures a == b && i == j
    decreases a
  {
    LiteralStart(a, i, ts);
    LiteralStart(b, j, ts);
    if a.LiteralArray? {
      var us := ArrayStep(a, i, ts);
      var vs := ArrayStep(b, j, ts);
      ElementsOne(a.elements, b.elements, ts[1..][1..]);
    }
  }

  lemma {:induction false} ElementsOne(a: Elements, b: Elements, ts: Tokens)
    requires EatElements(a, ts).Some? && Head(EatElements(a, ts).value).sym == EndTerm
    requires EatElements(b, ts).Some? && Head(EatElements(b, ts).value).sym == EndTerm
    ensures a == b
    decreases a
  {
    hide EatLiteral;
    ElementsStep(a, ts);
    ElementsStep(b, ts);
    if a.Element? {
      LiteralOne(a.lit, a.id, b.lit, b.id, ts);
      ElementsOne(a.more, b.more, EatLiteral(a.lit, a.id, ts).value);
    }
  }

  lemma LocalsOne(a: Locals, c: Body, b: Locals, d: Body, end: Symbol, ts: Tokens)
    requires ContentsAhead(a, c, end, ts) && ContentsAhead(b, d, end, ts)
    ensures a == b
  {
    hide EatBody;
    var _ := ContentsStep(a, c, end, ts);
    var _ := ContentsStep(b, d, end, ts);
    if a.Locals? {
      NamesOne(a.names, b.names, ts[1..]);
    }
  }

  // ----- expressions -----

  lemma {:induction false} UnariesOne(a: Unaries, b: Unaries, ts: Tokens)
    requires UnariesAhead(a, ts) && UnariesAhead(b, ts)
    ensures a == b
    decreases a
  {
    UnariesStep(a, ts);
    UnariesStep(b, ts);
    if a.Unary? {
      UnariesOne(a.more, b.more, Rest(ts));
    }
  }

  lemma {:induction false} PrimaryOne(a: Primary, b: Primary, ts: Tokens)
    requires PrimaryAhead(a, ts) && PrimaryAhead(b, ts)
    ensures a == b
    decreases a, 0
  {
    hide EatExpr, EatBody, EatPattern, EatLocals, EatLiteral;
    PrimaryStart(a, ts);
    PrimaryStart(b, ts);
    match a
    case Variable(_) =>
    case Nested(term) =>
      var _ := NestedStep(a, ts);
      var _ := NestedStep(b, ts);
      ExprOne(term, b.term, Rest(ts));
    case Block(_, _, _, _) => BlockOne(a, b, ts);
    case LiteralNode(lit, id) => LiteralOne(lit, id, b.lit, b.id, ts);
  }

  lemma {:induction false} BlockOne(a: Primary, b: Primary, ts: Tokens)
    requires PrimaryAhead(a, ts) && PrimaryAhead(b, ts) && a.Block? && b.Block?
    ensures a == b
    decreases a, -1
  {
    hide EatPrimary, PrimaryAhead, EatBody, EatLocals;
    var us, vs, _ := BlockStep(a, ts);
    var xs, ys, _ := BlockStep(b, ts);
    if a.params != [] {
      ParamsOne(a.params, b.params, Rest(ts));
    }
    LocalsOne(a.locals, a.body, b.locals, b.body, EndBlock, us);
    var _ := ContentsStep(a.locals, a.body, EndBlock, us);
    var _ := ContentsStep(b.locals, b.body, EndBlock, us);
    BodyOne(a.body, b.body, EndBlock, vs);
  }

  lemma {:induction false} OperandOne(a: Operand, b: Operand, ts: Tokens)
    requires OperandAhead(a, ts) && OperandAhead(b, ts)
    ensures a == b
    decreases a, 0
  {
    hide OperandAhead, EatOperand, PrimaryAhead, UnariesAhead;
    var us := OperandStep(a, ts);
    var vs := OperandStep(b, ts);
    PrimaryOne(a.head, b.head, ts);
    UnariesOne(a.unaries, b.unaries, us);
  }

  lemma {:induction false} BinariesOne(a: Binaries, b: Binaries, ts: Tokens)
    requires BinariesAhead(a, ts) && BinariesAhead(b, ts)
    ensures a == b
    decreases a, 0
  {
    hide OperandAhead, EatOperand;
    var us := BinariesStep(a, ts);
    var vs := BinariesStep(b, ts);
    if a.Binary? {
      OperandOne(a.arg, b.arg, Rest(ts));
      BinariesOne(a.rest, b.rest, us);
    }
  }

  lemma {:induction false} FormulaOne(a: Formula, b: Formula, ts: Tokens)
    requires FormulaAhead(a, ts) && FormulaAhead(b, ts)
    ensures a == b
    decreases a, 0
  {
    hide FormulaAhead, EatFormula, OperandAhead, BinariesAhead;
    var us := FormulaStep(a, ts);
    var vs := FormulaStep(b, ts);
    OperandOne(a.operand, b.operand, ts);
    BinariesOne(a.binaries, b.binaries, us);
  }

  lemma {:induction false} KeywordsOne(a: Keywords, b: Keywords, ts: Tokens)
    requires KeywordsAhead(a, ts) && KeywordsAhead(b, ts)
    ensures a == b
    decreases a, 0
  {
    hide FormulaAhead, EatFormula;
    var us := KeywordsStep(a, ts);
    var vs := KeywordsStep(b, ts);
    if a.KeywordPart? {
      FormulaOne(a.arg, b.arg, Rest(ts));
      KeywordsOne(a.tail, b.tail, us);
    }
  }

  lemma {:induction false} ExprOne(a: Expr, b: Expr, ts: Tokens)
    requires ExprAhead(a, ts) && ExprAhead(b, ts)
    ensures a == b
    decreases a, 1
  {
    hide ExprAhead, EatExpr, EatFormula, EatKeywords;
    var us := ExprStep(a, ts);
    var vs := ExprStep(b, ts);
    TargetsOne(a.targets, b.targets, ts);
    var fs := EvaluationFormula(a.formula, a.keywords, us);
    var gs := EvaluationFormula(b.formula, b.keywords, us);
    FormulaOne(a.formula, b.formula, us);
    KeywordsOne(a.keywords, b.keywords, fs);
  }

  lemma EvaluationFormula(f: Formula, ks: Keywords, ts: Tokens) returns (us: Tokens)
    requires EvaluationAhead(f, ks, ts)
    ensures FormulaAhead(f, ts) && EatFormula(f, ts) == Some(us) && KeywordsAhead(ks, us)
  {
    us := EatFormula(f, ts).value;
    var _ := KeywordsStep(ks, us);
  }

  lemma {:induction false} BodyOne(a: Body, b: Body, end: Symbol, ts: Tokens)
    requires BodyAhead(a, end, ts) && BodyAhead(b, end, ts)
    ensures a == b
    decreases a, 0
  {
    hide BodyAhead, EatBody, ExprAhead, EatExpr;
    var us := BodyStep(a, end, ts);
    var vs := BodyStep(b, end, ts);
    match a
    case Answer(e, _) => ExprOne(e, b.result, Rest(ts));
    case Finished =>
    case Last(e) => ExprOne(e, if b.Last? then b.value else b.first, ts);
    case Then(e, rest) =>
      ExprOne(e, if b.Last? then b.value else b.first, ts);
      BodyOne(rest, b.following, end, Rest(us));
  }

  // ----- class definitions -----

  lemma {:induction false} KeyArgsOne(a: seq<string>, m: seq<string>, b: seq<string>, n: seq<string>, ts: Tokens)
    requires EatKeyArgs(a, m, ts).Some? && Head(EatKeyArgs(a, m, ts).value).sym != Keyword
    requires EatKeyArgs(b, n, ts).Some? && Head(EatKeyArgs(b, n, ts).value).sym != Keyword
    ensures a == b && m == n
    decreases |a|
  {
    hide EatKeyArgs;
    KeyArgsStep(a, m, ts);
    KeyArgsStep(b, n, ts);
    if a != [] {
      KeyArgsOne(a[1..], m[1..], b[1..], n[1..], Rest(Rest(ts)));
      assert a == [a[0]] + a[1..] && b == [b[0]] + b[1..] && m == [m[0]] + m[1..] && n == [n[0]] + n[1..];
    }
  }

  lemma PatternOne(a: MethodPattern, b: MethodPattern, ts: Tokens)
    requires EatMethodPattern(a, ts).Some? && Head(EatMethodPattern(a, ts).value).sym == Equal
    requires EatMethodPattern(b, ts).Some? && Head(EatMethodPattern(b, ts).value).sym == Equal
    ensures a == b
  {
    if a.KeywordPattern? && b.KeywordPattern? {
      hide EatKeyArgs;
      KeyArgsOne(a.keys, a.names, b.keys, b.names, ts);
    }
  }

  lemma DefinitionOne(a: Definition, b: Definition, ts: Tokens)
    requires EatDefinition(a, ts).Some? && EatDefinition(b, ts).Some?
    ensures a == b
  {
    hide EatMethodPattern, EatContents, EatBody;
    var us := DefinitionStep(a, ts);
    var vs := DefinitionStep(b, ts);
    PatternOne(a.pattern, b.pattern, ts);
    if !a.primitive {
      var xs := Rest(us);
      var _ := MethodBlockStep(a.locals, a.body, xs);
      var _ := MethodBlockStep(b.locals, b.body, xs);
      LocalsOne(a.locals, a.body, b.locals, b.body, EndTerm, Rest(xs));
      var ys := ContentsStep(a.locals, a.body, EndTerm, Rest(xs));
      var zs := ContentsStep(b.locals, b.body, EndTerm, Rest(xs));
      BodyOne(a.body, b.body, EndTerm, ys);
    }
  }

  lemma {:induction false} DefinitionsOne(a: seq<Definition>, b: seq<Definition>, ts: Tokens)
    requires EatDefinitions(a, ts).Some? && !StartsMethod(Head(EatDefinitions(a, ts).value).sym)
    requires EatDefinitions(b, ts).Some? && !StartsMethod(Head(EatDefinitions(b, ts).value).sym)
    ensures a == b
    decreases |a|
  {
    hide EatDefinitions, EatDefinition, StartsMethod;
    DefinitionsStep(a, ts);
    DefinitionsStep(b, ts);
    if a != [] {
      DefinitionOne(a[0], b[0], ts);
      DefinitionsOne(a[1..], b[1..], EatDefinition(a[0], ts).value);
      assert a == [a[0]] + a[1..] && b == [b[0]] + b[1..];
    }
  }

  /** The fields of a side end where no name follows. */
  lemma FieldsOne(a: Locals, b: Locals, ts: Tokens)
    requires EatLocals(a, ts).Some? && EatLocals(b, ts).Some? && (a.Locals? <==> b.Locals?)
    ensures a == b
  {
    if a.Locals? {
      NamesOne(a.names, b.names, ts[1..]);
    }
  }

  lemma SideOne(a: Side, b: Side, ts: Tokens)
    requires EatSide(a, ts).Some? && Head(EatSide(a, ts).value).sym in {EndTerm, Separator}
    requires EatSide(b, ts).Some? && Head(EatSide(b, ts).value).sym in {EndTerm, Separator}
    ensures a == b
  {
    hide EatLocals, EatDefinitions;
    SideStep(a, ts);
    SideStep(b, ts);
    FieldsOne(a.fields, b.fields, ts);
    DefinitionsOne(a.methods, b.methods, EatLocals(a.fields, ts).value);
  }

  lemma HeadOne(a: ClassDef, b: ClassDef, ts: Tokens)
    requires EatHead(a, ts).Some? && EatHead(b, ts).Some?
    ensures a.name == b.name && a.superName == b.superName && EatHead(a, ts) == EatHead(b, ts)
  {
    hide EatHead;
    var us := HeadStep(a, ts);
    var vs := HeadStep(b, ts);
  }

  lemma ClassSideOne(a: Option<Side>, b: Option<Side>, ts: Tokens)
    requires EatClassSide(a, ts).Some? && EatClassSide(b, ts).Some?
    ensures a == b
  {
    if a.Some? && b.Some? {
      hide EatSide;
      SideOne(a.value, b.value, ts[1..]);
    }
  }

  /** No text is the definition of two classes, or of one class in two ways. */
  lemma ClassOne(a: ClassDef, b: ClassDef, ts: Tokens)
    requires EatClass(a, ts).Some? && EatClass(b, ts).Some?
    ensures a == b
  {
    hide EatHead, EatSide, EatClassSide, EatClass;
    var us, vs := ClassStep(a, ts);
    var xs, ys := ClassStep(b, ts);
    HeadOne(a, b, ts);
    SideOne(a.instances, b.instances, us);
    ClassSideOne(a.classes, b.classes, vs);
  }
}
