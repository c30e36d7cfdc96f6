/** The stack discipline of generated code: every expression pushes exactly one value, never digs
    below the height it starts at, and a body ends in its only return, at height 1. */
module CodeShape {
  import opened Common
  import opened Syntax
  import opened Bytecodes
  import opened Signature
  import opened StackDepth
  import opened CodeGen
  import opened CodeOperands

  // ----- selectors as the lexer delivers them -----

  predicate PrimaryOk(p: Primary)
    decreases p, 0
  {
    match p
    case Nested(term) => ExprOk(term)
    case _ => true
  }

  predicate UnariesOk(us: Unaries) {
    us.Unary? ==> IsIdentifier(us.sel) && UnariesOk(us.more)
  }

  predicate OperandOk(o: Operand)
    decreases o, 0
  {
    PrimaryOk(o.head) && UnariesOk(o.unaries)
  }

  predicate BinariesOk(bs: Binaries)
    decreases bs, 0
  {
    bs.Binary? ==> IsOperator(bs.sel) && OperandOk(bs.arg) && BinariesOk(bs.rest)
  }

  predicate FormulaOk(f: Formula)
    decreases f, 0
  {
    OperandOk(f.operand) && BinariesOk(f.binaries)
  }

  predicate KeywordsOk(ks: Keywords)
    decreases ks, 0
  {
    ks.KeywordPart? ==> IsKeyword(ks.key) && FormulaOk(ks.arg) && KeywordsOk(ks.tail)
  }

  predicate ExprOk(e: Expr)
    decreases e, 1
  {
    FormulaOk(e.formula) && KeywordsOk(e.keywords)
  }

  predicate BodyOk(b: Body) {
    match b
    case Answer(e, _) => ExprOk(e)
    case Finished => true
    case Last(e) => ExprOk(e)
    case Then(e, rest) => ExprOk(e) && BodyOk(rest)
  }

  // ----- heights -----

  /** From height h the code never dips below 0 and ends `delta` higher. */
  predicate Shape(code: seq<Instr>, lits: seq<Value>, h: int, delta: int) {
    NeverDips(code, lits, h) && Net(code, lits) == delta
  }

  lemma ShapeConcat(a: seq<Instr>, b: seq<Instr>, lits: seq<Value>, h: int, d: int, g: int, e: int)
    requires Shape(a, lits, h, d) && Shape(b, lits, g, e) && g <= h + d
    ensures Shape(a + b, lits, h, d + e)
  {
    NeverDipsHigher(b, lits, g, h + d);
    NeverDipsConcat(a, b, lits, h);
    NetConcat(a, b, lits);
  }

  lemma ShapeOne(i: Instr, lits: seq<Value>, h: int)
    requires Need(i, lits) <= h
    ensures Shape([i], lits, h, Effect(i, lits))
  {
    assert [i][1..] == [];
    assert Net([i][1..], lits) == 0;
  }

  lemma MessageShape(sel: string, toSuper: bool, lits: seq<Value>, final: seq<Value>)
    requires SymV(sel) in lits && lits <= final && |final| <= 256
    ensures Shape([Message(sel, toSuper, lits)], final, Arity(sel), 1 - Arity(sel))
  {
    LiteralStable(lits, final, SymV(sel));
    ShapeOne(Message(sel, toSuper, lits), final, Arity(sel));
  }

  lemma {:induction false} PrimaryShape(cx: Context, p: Primary, lits: seq<Value>, final: seq<Value>)
    requires PrimaryOk(p) && PrimaryCode(cx, p, lits).lits <= final && |final| <= 256
    ensures Shape(PrimaryCode(cx, p, lits).code, final, 0, 1)
    decreases p, 0
  {
    if p.Nested? {
      ExprShape(cx, p.term, lits, final);
    } else {
      ShapeOne(PrimaryCode(cx, p, lits).code[0], final, 0);
    }
  }

  lemma {:induction false} UnariesShape(us: Unaries, toSuper: bool, lits: seq<Value>, final: seq<Value>)
    requires UnariesOk(us) && UnariesCode(us, toSuper, lits).lits <= final && |final| <= 256
    ensures Shape(UnariesCode(us, toSuper, lits).code, final, 1, 0)
  {
    if us.Unary? {
      var lits' := AddIfAbsent(lits, SymV(us.sel));
      UnariesLits(us.more, false, lits');
      UnaryArity(us.sel);
      MessageShape(us.sel, toSuper, lits', final);
      UnariesShape(us.more, false, lits', final);
      ShapeConcat([Message(us.sel, toSuper, lits')], UnariesCode(us.more, false, lits').code, final, 1, 0, 1, 0);
    }
  }

  lemma {:induction false} OperandShape(cx: Context, o: Operand, lits: seq<Value>, final: seq<Value>)
    requires OperandOk(o) && OperandCode(cx, o, lits).lits <= final && |final| <= 256
    ensures Shape(OperandCode(cx, o, lits).code, final, 0, 1)
    decreases o, 0
  {
    OperandLits(cx, o, lits);
    var g := PrimaryCode(cx, o.head, lits);
    PrimaryShape(cx, o.head, lits, final);
    UnariesShape(o.unaries, IsSuper(o.head), g.lits, final);
    ShapeConcat(g.code, UnariesCode(o.unaries, IsSuper(o.head), g.lits).code, final, 0, 1, 1, 0);
  }

  lemma {:induction false} BinariesShape(cx: Context, bs: Binaries, toSuper: bool, lits: seq<Value>, final: seq<Value>)
    requires BinariesOk(bs) && BinariesCode(cx, bs, toSuper, lits).lits <= final && |final| <= 256
    ensures Shape(BinariesCode(cx, bs, toSuper, lits).code, final, 1, 0)
    decreases bs, 0
  {
    if bs.Binary? {
      BinariesLits(cx, bs, toSuper, lits);
      var lits' := AddIfAbsent(lits, SymV(bs.sel));
      var g := OperandCode(cx, bs.arg, lits');
      var h := BinariesCode(cx, bs.rest, false, g.lits);
      OperandShape(cx, bs.arg, lits', final);
      NeverDipsHigher(g.code, final, 0, 1);
      MessageShape(bs.sel, toSuper, g.lits, final);
      ShapeConcat(g.code, [Message(bs.sel, toSuper, g.lits)], final, 1, 1, 2, -1);
      BinariesShape(cx, bs.rest, false, g.lits, final);
      ShapeConcat(g.code + [Message(bs.sel, toSuper, g.lits)], h.code, final, 1, 0, 1, 0);
    }
  }

  lemma {:induction false} FormulaShape(cx: Context, f: Formula, lits: seq<Value>, final: seq<Value>)
    requires FormulaOk(f) && FormulaCode(cx, f, lits).lits <= final && |final| <= 256
    ensures Shape(FormulaCode(cx, f, lits).code, final, 0, 1)
    decreases f, 0
  {
    FormulaLits(cx, f, lits);
    var g := OperandCode(cx, f.operand, lits);
    OperandShape(cx, f.operand, lits, final);
    BinariesShape(cx, f.binaries, PendingSuper(f.operand), g.lits, final);
    ShapeConcat(g.code, BinariesCode(cx, f.binaries, PendingSuper(f.operand), g.lits).code, final, 0, 1, 1, 0);
  }

  lemma {:induction false} KeywordArgsShape(cx: Context, ks: Keywords, lits: seq<Value>, final: seq<Value>)
    requires KeywordsOk(ks) && KeywordArgsCode(cx, ks, lits).lits <= final && |final| <= 256
    ensures Shape(KeywordArgsCode(cx, ks, lits).code, final, 0, |KeywordList(ks)|)
    decreases ks, 0
  {
    if ks.KeywordPart? {
      KeywordArgsLits(cx, ks, lits);
      var g := FormulaCode(cx, ks.arg, lits);
      FormulaShape(cx, ks.arg, lits, final);
      KeywordArgsShape(cx, ks.tail, g.lits, final);
      ShapeConcat(g.code, KeywordArgsCode(cx, ks.tail, g.lits).code, final, 0, 1, 0, |KeywordList(ks.tail)|);
    }
  }

  lemma {:induction false} KeywordListOk(ks: Keywords)
    requires KeywordsOk(ks)
    ensures forall k | k in KeywordList(ks) :: IsKeyword(k)
  {
    if ks.KeywordPart? {
      KeywordListOk(ks.tail);
    }
  }

  lemma {:induction false} KeywordMessageShape(cx: Context, ks: Keywords, toSuper: bool, lits: seq<Value>,
                                               final: seq<Value>)
    requires KeywordsOk(ks) && KeywordMessageCode(cx, ks, toSuper, lits).lits <= final && |final| <= 256
    ensures Shape(KeywordMessageCode(cx, ks, toSuper, lits).code, final, 1, 0)
    decreases ks, 1
  {
    if ks.KeywordPart? {
      var n := |KeywordList(ks)|;
      var g := KeywordArgsCode(cx, ks, lits);
      var sel := Concat(KeywordList(ks));
      var lits' := AddIfAbsent(g.lits, SymV(sel));
      KeywordArgsShape(cx, ks, lits, final);
      NeverDipsHigher(g.code, final, 0, 1);
      KeywordListOk(ks);
      KeywordArity(KeywordList(ks));
      MessageShape(sel, toSuper, lits', final);
      ShapeConcat(g.code, [Message(sel, toSuper, lits')], final, 1, n, n + 1, -n);
    }
  }

  lemma {:induction false} EvaluationShape(cx: Context, e: Expr, lits: seq<Value>, final: seq<Value>)
    requires ExprOk(e) && EvaluationCode(cx, e, lits).lits <= final && |final| <= 256
    ensures Shape(EvaluationCode(cx, e, lits).code, final, 0, 1)
    decreases e, 0
  {
    EvaluationLits(cx, e, lits);
    var g := FormulaCode(cx, e.formula, lits);
    FormulaShape(cx, e.formula, lits, final);
    KeywordMessageShape(cx, e.keywords, KeywordToSuper(e), g.lits, final);
    ShapeConcat(g.code, KeywordMessageCode(cx, e.keywords, KeywordToSuper(e), g.lits).code, final, 0, 1, 1, 0);
  }

  lemma {:induction false} DupsShape(n: nat, lits: seq<Value>)
    ensures Shape(Dups(n), lits, 1, n)
  {
    if n > 0 {
      DupsShape(n - 1, lits);
      ShapeOne(Dup, lits, 1);
      ShapeConcat([Dup], Dups(n - 1), lits, 1, 1, 1, n - 1);
    }
  }

  lemma {:induction false} PopTargetsShape(cx: Context, targets: seq<string>, lits: seq<Value>, final: seq<Value>)
    ensures Shape(PopTargets(cx, targets, lits), final, |targets|, -|targets|)
    decreases |targets|
  {
    if targets != [] {
      var n := |targets|;
      PopTargetsShape(cx, targets[1..], lits, final);
      ShapeOne(PopVariable(cx, targets[0], lits), final, n);
      ShapeConcat([PopVariable(cx, targets[0], lits)], PopTargets(cx, targets[1..], lits), final, n, -1, n - 1, 1 - n);
    }
  }

  lemma {:induction false} ExprShape(cx: Context, e: Expr, lits: seq<Value>, final: seq<Value>)
    requires ExprOk(e) && ExprCode(cx, e, lits).lits <= final && |final| <= 256
    ensures Shape(ExprCode(cx, e, lits).code, final, 0, 1)
    decreases e, 1
  {
    var n := |e.targets|;
    var g := EvaluationCode(cx, e, AddTargets(e.targets, lits));
    EvaluationShape(cx, e, AddTargets(e.targets, lits), final);
    DupsShape(n, final);
    PopTargetsShape(cx, e.targets, g.lits, final);
    ShapeConcat(g.code, Dups(n), final, 0, 1, 1, n);
    ShapeConcat(g.code + Dups(n), PopTargets(cx, e.targets, g.lits), final, 0, n + 1, n, -n);
  }

  /** Code that ends in a return, at height 1. */
  predicate Returns(code: seq<Instr>, lits: seq<Value>) {
    && Shape(code, lits, 0, 1)
    && |code| > 0 && IsReturn(code[|code| - 1])
  }

  lemma ReturnsPrefix(a: seq<Instr>, b: seq<Instr>, lits: seq<Value>)
    requires Shape(a, lits, 0, 0) && Returns(b, lits)
    ensures Returns(a + b, lits)
  {
    ShapeConcat(a, b, lits, 0, 0, 0, 1);
  }

  /** The shape of a whole body: statements keep height 0 between them, and the return is at height 1. */
  lemma {:induction false} BodyShape(cx: Context, b: Body, isBlock: bool, lits: seq<Value>, final: seq<Value>)
    requires BodyOk(b) && BodyCode(cx, b, isBlock, lits).lits <= final && |final| <= 256
    ensures Returns(BodyCode(cx, b, isBlock, lits).code, final)
    decreases b
  {
    hide ExprCode, Arity, Selector;
    BodyLits(cx, b, isBlock, lits);
    match b
    case Answer(e, _) =>
      ExprReturns(cx, e, lits, final, if isBlock then ReturnNonLocal else ReturnLocal);
    case Finished =>
      var c := BodyCode(cx, b, isBlock, lits).code;
      ShapeOne(c[0], final, 0);
      ShapeOne(c[1], final, 1);
      ShapeConcat([c[0]], [c[1]], final, 0, 1, 1, 0);
      assert c == [c[0]] + [c[1]];
    case Last(e) =>
      if isBlock {
        ExprReturns(cx, e, lits, final, ReturnLocal);
      } else {
        StatementThenReturns(cx, e, lits, final, RETURN_SELF);
      }
    case Then(e, rest) =>
      if isBlock && rest.Finished? {
        ExprReturns(cx, e, lits, final, ReturnLocal);
      } else {
        var g := ExprCode(cx, e, lits);
        BodyShape(cx, rest, isBlock, g.lits, final);
        StatementThenReturns(cx, e, lits, final, BodyCode(cx, rest, isBlock, g.lits).code);
      }
  }

  lemma ExprReturns(cx: Context, e: Expr, lits: seq<Value>, final: seq<Value>, ret: Instr)
    requires ExprOk(e) && ExprCode(cx, e, lits).lits <= final && |final| <= 256 && IsReturn(ret)
    ensures Returns(ExprCode(cx, e, lits).code + [ret], final)
  {
    var c := ExprCode(cx, e, lits).code;
    ExprShape(cx, e, lits, final);
    ShapeOne(ret, final, 1);
    ShapeConcat(c, [ret], final, 0, 1, 1, 0);
  }

  lemma StatementThenReturns(cx: Context, e: Expr, lits: seq<Value>, final: seq<Value>, rest: seq<Instr>)
    requires ExprOk(e) && ExprCode(cx, e, lits).lits <= final && |final| <= 256
    requires Returns(rest, final) || rest == RETURN_SELF
    ensures Returns(ExprCode(cx, e, lits).code + [Pop] + rest, final)
    ensures ExprCode(cx, e, lits).code + [Pop] + rest == ExprCode(cx, e, lits).code + ([Pop] + rest)
  {
    hide ExprCode, Arity, Selector, Peak, NeverDips, Net;
    var c := ExprCode(cx, e, lits).code;
    ExprShape(cx, e, lits, final);
    ShapeOne(Pop, final, 1);
    ShapeConcat(c, [Pop], final, 0, 1, 1, -1);
    if rest == RETURN_SELF {
      ShapeOne(rest[0], final, 0);
      ShapeOne(rest[1], final, 1);
      ShapeConcat([rest[0]], [rest[1]], final, 0, 1, 1, 0);
      assert rest == [rest[0]] + [rest[1]];
    }
    ReturnsPrefix(c + [Pop], rest, final);
  }

  // ----- compiled methods -----

  /** Every compiled method keeps the stack discipline, and its frame size covers its exact peak. */
  lemma CompiledShape(s: Source)
    requires BodyOk(s.body) && WithinLimits(s)
    ensures Returns(Compile(s).code, Compile(s).literals)
    ensures Compile(s).maxStack == Peak(Compile(s).code, Compile(s).literals, 0)
            <==> Peak(Compile(s).code, Compile(s).literals, 0) <= 255
  {
    var g := BodyCode(s.Cx(), s.body, s.isBlock, []);
    BodyShape(s.Cx(), s.body, s.isBlock, [], g.lits);
    ComputedDepthIsExact(g.code, g.lits);
  }
}
