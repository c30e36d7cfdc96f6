/** Operands of generated code: literal references are stable while the table grows, variables
    resolve to slots that exist, and no instruction inside an expression returns. */
module CodeOperands {
  import opened Common
  import opened Syntax
  import opened Bytecodes
  import opened Signature
  import opened CodeGen

  // ----- the literal table only grows -----

  lemma {:induction false} PrimaryLits(cx: Context, p: Primary, lits: seq<Value>)
    ensures lits <= PrimaryCode(cx, p, lits).lits
    decreases p, 0
  {
    if p.Nested? {
      ExprLits(cx, p.term, lits);
    }
  }

  lemma {:induction false} UnariesLits(us: Unaries, toSuper: bool, lits: seq<Value>)
    ensures lits <= UnariesCode(us, toSuper, lits).lits
  {
    if us.Unary? {
      UnariesLits(us.more, false, AddIfAbsent(lits, SymV(us.sel)));
    }
  }

  lemma {:induction false} OperandLits(cx: Context, o: Operand, lits: seq<Value>)
    ensures lits <= PrimaryCode(cx, o.head, lits).lits <= OperandCode(cx, o, lits).lits
    decreases o, 0
  {
    PrimaryLits(cx, o.head, lits);
    UnariesLits(o.unaries, IsSuper(o.head), PrimaryCode(cx, o.head, lits).lits);
  }

  lemma {:induction false} BinariesLits(cx: Context, bs: Binaries, toSuper: bool, lits: seq<Value>)
    ensures lits <= BinariesCode(cx, bs, toSuper, lits).lits
    ensures bs.Binary? ==>
              var g := OperandCode(cx, bs.arg, AddIfAbsent(lits, SymV(bs.sel)));
              AddIfAbsent(lits, SymV(bs.sel)) <= g.lits <= BinariesCode(cx, bs, toSuper, lits).lits
    decreases bs, 0
  {
    if bs.Binary? {
      var lits' := AddIfAbsent(lits, SymV(bs.sel));
      OperandLits(cx, bs.arg, lits');
      BinariesLits(cx, bs.rest, false, OperandCode(cx, bs.arg, lits').lits);
    }
  }

  lemma {:induction false} FormulaLits(cx: Context, f: Formula, lits: seq<Value>)
    ensures lits <= OperandCode(cx, f.operand, lits).lits <= FormulaCode(cx, f, lits).lits
    decreases f, 0
  {
    OperandLits(cx, f.operand, lits);
    BinariesLits(cx, f.binaries, PendingSuper(f.operand), OperandCode(cx, f.operand, lits).lits);
  }

  lemma {:induction false} KeywordArgsLits(cx: Context, ks: Keywords, lits: seq<Value>)
    ensures lits <= KeywordArgsCode(cx, ks, lits).lits
    ensures ks.KeywordPart? ==>
              lits <= FormulaCode(cx, ks.arg, lits).lits <= KeywordArgsCode(cx, ks, lits).lits
    decreases ks, 0
  {
    if ks.KeywordPart? {
      FormulaLits(cx, ks.arg, lits);
      KeywordArgsLits(cx, ks.tail, FormulaCode(cx, ks.arg, lits).lits);
    }
  }

  lemma {:induction false} KeywordMessageLits(cx: Context, ks: Keywords, toSuper: bool, lits: seq<Value>)
    ensures lits <= KeywordMessageCode(cx, ks, toSuper, lits).lits
    decreases ks, 1
  {
    KeywordArgsLits(cx, ks, lits);
  }

  lemma {:induction false} EvaluationLits(cx: Context, e: Expr, lits: seq<Value>)
    ensures lits <= FormulaCode(cx, e.formula, lits).lits <= EvaluationCode(cx, e, lits).lits
    decreases e, 0
  {
    FormulaLits(cx, e.formula, lits);
    KeywordMessageLits(cx, e.keywords, KeywordToSuper(e), FormulaCode(cx, e.formula, lits).lits);
  }

  lemma {:induction false} ExprLits(cx: Context, e: Expr, lits: seq<Value>)
    ensures lits <= AddTargets(e.targets, lits) <= ExprCode(cx, e, lits).lits
    decreases e, 1
  {
    EvaluationLits(cx, e, AddTargets(e.targets, lits));
  }

  lemma {:induction false} BodyLits(cx: Context, b: Body, isBlock: bool, lits: seq<Value>)
    ensures lits <= BodyCode(cx, b, isBlock, lits).lits
    ensures b.Then? ==> ExprCode(cx, b.first, lits).lits <= BodyCode(cx, b, isBlock, lits).lits
    decreases b
  {
    match b
    case Answer(e, _) => ExprLits(cx, e, lits);
    case Finished =>
    case Last(e) => ExprLits(cx, e, lits);
    case Then(e, rest) =>
      ExprLits(cx, e, lits);
      BodyLits(cx, rest, isBlock, ExprCode(cx, e, lits).lits);
  }

  /** A literal found while compiling is found at the same place in the finished table. */
  lemma LiteralStable(lits: seq<Value>, final: seq<Value>, v: Value)
    requires v in lits && lits <= final && |final| <= 256
    ensures LitIndex(lits, v) == LitIndex(final, v) < |final|
    ensures final[LitIndex(lits, v)] == v
  {
    IndexOfPrefix(lits, final, v);
  }

  // ----- the blocks written directly in a tree -----

  function PrimaryBlocks(p: Primary): set<Primary>
    decreases p, 0
  {
    match p
    case Nested(term) => ExprBlocks(term)
    case Block(_, _, _, _) => {p}
    case _ => {}
  }

  function OperandBlocks(o: Operand): set<Primary>
    decreases o, 0
  {
    PrimaryBlocks(o.head)
  }

  function BinariesBlocks(bs: Binaries): set<Primary>
    decreases bs, 0
  {
    if bs.NoBinary? then {} else OperandBlocks(bs.arg) + BinariesBlocks(bs.rest)
  }

  function FormulaBlocks(f: Formula): set<Primary>
    decreases f, 0
  {
    OperandBlocks(f.operand) + BinariesBlocks(f.binaries)
  }

  function KeywordsBlocks(ks: Keywords): set<Primary>
    decreases ks, 0
  {
    if ks.NoKeyword? then {} else FormulaBlocks(ks.arg) + KeywordsBlocks(ks.tail)
  }

  function ExprBlocks(e: Expr): set<Primary>
    decreases e, 1
  {
    FormulaBlocks(e.formula) + KeywordsBlocks(e.keywords)
  }

  function BodyBlocks(b: Body): set<Primary> {
    match b
    case Answer(e, _) => ExprBlocks(e)
    case Finished => {}
    case Last(e) => ExprBlocks(e)
    case Then(e, rest) => ExprBlocks(e) + BodyBlocks(rest)
  }

  // ----- operands -----

  predicate SymbolAt(final: seq<Value>, k: nat) {
    k < |final| && final[k].SymV?
  }

  /** An instruction of an expression whose operands refer to what exists. */
  predicate Proper(i: Instr, cx: Context, final: seq<Value>, blocks: set<Primary>) {
    match i
    case Halt => false
    case ReturnLocal => false
    case ReturnNonLocal => false
    case PushLocal(x, l) => l < |cx.scopes| && x < |cx.scopes[l].locals|
    case PopLocal(x, l) => l < |cx.scopes| && x < |cx.scopes[l].locals|
    case PushArgument(x, l) => l < |cx.scopes| && x < |cx.scopes[l].args|
    case PopArgument(x, l) => l < |cx.scopes| && x < |cx.scopes[l].args|
    case PushField(k) => SymbolAt(final, k)
    case PopField(k) => SymbolAt(final, k)
    case PushGlobal(k) => SymbolAt(final, k)
    case Send(k) => SymbolAt(final, k)
    case SuperSend(k) => SymbolAt(final, k)
    case PushConstant(k) => k < |final| && (final[k].SymV? || final[k].ConstV? || final[k].ListV?)
    case PushBlock(k) =>
      k < |final| && final[k].CodeV? && exists b | b in blocks :: b.Block? && b.id == final[k].code
    case _ => true
  }

  predicate AllProper(code: seq<Instr>, cx: Context, final: seq<Value>, blocks: set<Primary>) {
    forall i | i in code :: Proper(i, cx, final, blocks)
  }

  /** A resolved name has a slot in the scope its level designates. */
  lemma {:induction false} FindVarInBounds(scopes: seq<Scope>, name: string)
    requires FindVar(scopes, name).Some?
    ensures var s := FindVar(scopes, name).value;
            s.level < |scopes| &&
            s.index < if s.isArgument then |scopes[s.level].args| else |scopes[s.level].locals|
    decreases |scopes|
  {
    if IndexOf(scopes[0].locals, name) == -1 && IndexOf(scopes[0].args, name) == -1 {
      FindVarInBounds(scopes[1..], name);
    }
  }

  lemma PushVariableProper(cx: Context, name: string, lits: seq<Value>, final: seq<Value>, blocks: set<Primary>)
    requires PushVariable(cx, name, lits).lits <= final && |final| <= 256 && Small(cx.scopes)
    ensures AllProper(PushVariable(cx, name, lits).code, cx, final, blocks)
  {
    if FindVar(cx.scopes, name).Some? {
      FindVarInBounds(cx.scopes, name);
    } else {
      LiteralStable(AddIfAbsent(lits, SymV(name)), final, SymV(name));
    }
  }

  lemma PopVariableProper(cx: Context, name: string, lits: seq<Value>, final: seq<Value>, blocks: set<Primary>)
    requires SymV(name) in lits && lits <= final && |final| <= 256 && Small(cx.scopes)
    ensures Proper(PopVariable(cx, name, lits), cx, final, blocks)
  {
    if FindVar(cx.scopes, name).Some? {
      FindVarInBounds(cx.scopes, name);
    } else {
      LiteralStable(lits, final, SymV(name));
    }
  }

  lemma MessageProper(sel: string, toSuper: bool, lits: seq<Value>, cx: Context, final: seq<Value>,
                      blocks: set<Primary>)
    requires SymV(sel) in lits && lits <= final && |final| <= 256
    ensures Proper(Message(sel, toSuper, lits), cx, final, blocks)
  {
    LiteralStable(lits, final, SymV(sel));
  }

  lemma AllProperAround(a: seq<Instr>, i: Instr, b: seq<Instr>, cx: Context, final: seq<Value>, blocks: set<Primary>)
    requires AllProper(a, cx, final, blocks) && Proper(i, cx, final, blocks) && AllProper(b, cx, final, blocks)
    ensures AllProper(a + [i] + b, cx, final, blocks)
  {
  }

  lemma {:induction false} PrimaryProper(cx: Context, p: Primary, lits: seq<Value>, final: seq<Value>,
                                         blocks: set<Primary>)
    requires PrimaryCode(cx, p, lits).lits <= final && |final| <= 256 && Small(cx.scopes)
    requires PrimaryBlocks(p) <= blocks
    ensures AllProper(PrimaryCode(cx, p, lits).code, cx, final, blocks)
    decreases p, 0
  {
    match p
    case Variable(name) => PushVariableProper(cx, if name == "super" then "self" else name, lits, final, blocks);
    case Nested(term) => ExprProper(cx, term, lits, final, blocks);
    case Block(id, _, _, _) =>
      LiteralStable(lits + [CodeV(id)], final, CodeV(id));
      assert p in blocks;
    case LiteralNode(lit, id) =>
      LiteralStable(AddIfAbsent(lits, LiteralObject(lit, id)), final, LiteralObject(lit, id));
  }

  lemma {:induction false} UnariesProper(cx: Context, us: Unaries, toSuper: bool, lits: seq<Value>,
                                         final: seq<Value>, blocks: set<Primary>)
    requires UnariesCode(us, toSuper, lits).lits <= final && |final| <= 256
    ensures AllProper(UnariesCode(us, toSuper, lits).code, cx, final, blocks)
  {
    if us.Unary? {
      var lits' := AddIfAbsent(lits, SymV(us.sel));
      UnariesLits(us.more, false, lits');
      MessageProper(us.sel, toSuper, lits', cx, final, blocks);
      UnariesProper(cx, us.more, false, lits', final, blocks);
    }
  }

  lemma {:induction false} OperandProper(cx: Context, o: Operand, lits: seq<Value>, final: seq<Value>,
                                         blocks: set<Primary>)
    requires OperandCode(cx, o, lits).lits <= final && |final| <= 256 && Small(cx.scopes)
    requires OperandBlocks(o) <= blocks
    ensures AllProper(OperandCode(cx, o, lits).code, cx, final, blocks)
    decreases o, 0
  {
    OperandLits(cx, o, lits);
    PrimaryProper(cx, o.head, lits, final, blocks);
    UnariesProper(cx, o.unaries, IsSuper(o.head), PrimaryCode(cx, o.head, lits).lits, final, blocks);
  }

  lemma {:induction false} BinariesProper(cx: Context, bs: Binaries, toSuper: bool, lits: seq<Value>,
                                          final: seq<Value>, blocks: set<Primary>)
    requires BinariesCode(cx, bs, toSuper, lits).lits <= final && |final| <= 256 && Small(cx.scopes)
    requires BinariesBlocks(bs) <= blocks
    ensures AllProper(BinariesCode(cx, bs, toSuper, lits).code, cx, final, blocks)
    decreases bs, 0
  {
    if bs.Binary? {
      BinariesLits(cx, bs, toSuper, lits);
      var lits' := AddIfAbsent(lits, SymV(bs.sel));
      var g := OperandCode(cx, bs.arg, lits');
      OperandProper(cx, bs.arg, lits', final, blocks);
      MessageProper(bs.sel, toSuper, g.lits, cx, final, blocks);
      BinariesProper(cx, bs.rest, false, g.lits, final, blocks);
      AllProperAround(g.code, Message(bs.sel, toSuper, g.lits), BinariesCode(cx, bs.rest, false, g.lits).code,
                      cx, final, blocks);
    }
  }

  lemma {:induction false} FormulaProper(cx: Context, f: Formula, lits: seq<Value>, final: seq<Value>,
                                         blocks: set<Primary>)
    requires FormulaCode(cx, f, lits).lits <= final && |final| <= 256 && Small(cx.scopes)
    requires FormulaBlocks(f) <= blocks
    ensures AllProper(FormulaCode(cx, f, lits).code, cx, final, blocks)
    decreases f, 0
  {
    FormulaLits(cx, f, lits);
    OperandProper(cx, f.operand, lits, final, blocks);
    BinariesProper(cx, f.binaries, PendingSuper(f.operand), OperandCode(cx, f.operand, lits).lits, final, blocks);
  }

  lemma {:induction false} KeywordArgsProper(cx: Context, ks: Keywords, lits: seq<Value>, final: seq<Value>,
                                             blocks: set<Primary>)
    requires KeywordArgsCode(cx, ks, lits).lits <= final && |final| <= 256 && Small(cx.scopes)
    requires KeywordsBlocks(ks) <= blocks
    ensures AllProper(KeywordArgsCode(cx, ks, lits).code, cx, final, blocks)
    decreases ks, 0
  {
    if ks.KeywordPart? {
      KeywordArgsLits(cx, ks, lits);
      FormulaProper(cx, ks.arg, lits, final, blocks);
      KeywordArgsProper(cx, ks.tail, FormulaCode(cx, ks.arg, lits).lits, final, blocks);
    }
  }

  lemma {:induction false} EvaluationProper(cx: Context, e: Expr, lits: seq<Value>, final: seq<Value>,
                                            blocks: set<Primary>)
    requires EvaluationCode(cx, e, lits).lits <= final && |final| <= 256 && Small(cx.scopes)
    requires ExprBlocks(e) <= blocks
    ensures AllProper(EvaluationCode(cx, e, lits).code, cx, final, blocks)
    decreases e, 0
  {
    EvaluationLits(cx, e, lits);
    FormulaProper(cx, e.formula, lits, final, blocks);
    if e.keywords.KeywordPart? {
      var g := KeywordArgsCode(cx, e.keywords, FormulaCode(cx, e.formula, lits).lits);
      var sel := Concat(KeywordList(e.keywords));
      KeywordArgsProper(cx, e.keywords, FormulaCode(cx, e.formula, lits).lits, final, blocks);
      MessageProper(sel, KeywordToSuper(e), AddIfAbsent(g.lits, SymV(sel)), cx, final, blocks);
    }
  }

  lemma {:induction false} DupsProper(n: nat, cx: Context, final: seq<Value>, blocks: set<Primary>)
    ensures AllProper(Dups(n), cx, final, blocks)
  {
    if n > 0 {
      DupsProper(n - 1, cx, final, blocks);
    }
  }

  lemma {:induction false} PopTargetsProper(cx: Context, targets: seq<string>, lits: seq<Value>,
                                            final: seq<Value>, blocks: set<Primary>)
    requires forall t | t in targets :: SymV(t) in lits
    requires lits <= final && |final| <= 256 && Small(cx.scopes)
    ensures AllProper(PopTargets(cx, targets, lits), cx, final, blocks)
    decreases |targets|
  {
    if targets != [] {
      PopVariableProper(cx, targets[0], lits, final, blocks);
      PopTargetsProper(cx, targets[1..], lits, final, blocks);
    }
  }

  lemma {:induction false} ExprProper(cx: Context, e: Expr, lits: seq<Value>, final: seq<Value>, blocks: set<Primary>)
    requires ExprCode(cx, e, lits).lits <= final && |final| <= 256 && Small(cx.scopes)
    requires ExprBlocks(e) <= blocks
    ensures AllProper(ExprCode(cx, e, lits).code, cx, final, blocks)
    decreases e, 1
  {
    var lits' := AddTargets(e.targets, lits);
    var g := EvaluationCode(cx, e, lits');
    EvaluationLits(cx, e, lits');
    EvaluationProper(cx, e, lits', final, blocks);
    DupsProper(|e.targets|, cx, final, blocks);
    assert forall t | t in e.targets :: SymV(t) in lits';
    PopTargetsProper(cx, e.targets, g.lits, final, blocks);
    assert ExprCode(cx, e, lits).code == g.code + Dups(|e.targets|) + PopTargets(cx, e.targets, g.lits);
  }

  predicate IsReturn(i: Instr) {
    i == ReturnLocal || i == ReturnNonLocal
  }

  /** The instructions of a body are proper, but for one return, which comes last. */
  predicate BodyProper(code: seq<Instr>, cx: Context, final: seq<Value>, blocks: set<Primary>) {
    && |code| > 0 && IsReturn(code[|code| - 1])
    && AllProper(code[..|code| - 1], cx, final, blocks)
  }

  lemma BodyProperPrefix(a: seq<Instr>, b: seq<Instr>, cx: Context, final: seq<Value>, blocks: set<Primary>)
    requires AllProper(a, cx, final, blocks) && BodyProper(b, cx, final, blocks)
    ensures BodyProper(a + b, cx, final, blocks)
  {
    assert (a + b)[..|a + b| - 1] == a + b[..|b| - 1];
  }

  lemma {:induction false} BodyOperands(cx: Context, b: Body, isBlock: bool, lits: seq<Value>,
                                        final: seq<Value>, blocks: set<Primary>)
    requires BodyCode(cx, b, isBlock, lits).lits <= final && |final| <= 256 && Small(cx.scopes)
    requires cx.scopes != [] && (isBlock || cx.scopes[0].args != [])
    requires BodyBlocks(b) <= blocks
    ensures BodyProper(BodyCode(cx, b, isBlock, lits).code, cx, final, blocks)
    decreases b
  {
    hide ExprCode, ExprBlocks, Small, IndexOf;
    BodyLits(cx, b, isBlock, lits);
    var code := BodyCode(cx, b, isBlock, lits).code;
    match b
    case Answer(e, _) =>
      ExprProper(cx, e, lits, final, blocks);
      BodyProperPrefix(ExprCode(cx, e, lits).code, code[|code| - 1..], cx, final, blocks);
    case Finished =>
      if isBlock {
        LiteralStable(AddIfAbsent(lits, SymV("nil")), final, SymV("nil"));
      }
    case Last(e) =>
      ExprProper(cx, e, lits, final, blocks);
      var c := ExprCode(cx, e, lits).code;
      BodyProperPrefix(c, if isBlock then [ReturnLocal] else [Pop] + RETURN_SELF, cx, final, blocks);
    case Then(e, rest) =>
      ExprProper(cx, e, lits, final, blocks);
      var g := ExprCode(cx, e, lits);
      if isBlock && rest.Finished? {
        BodyProperPrefix(g.code, [ReturnLocal], cx, final, blocks);
      } else {
        BodyOperands(cx, rest, isBlock, g.lits, final, blocks);
        BodyProperPrefix(g.code + [Pop], BodyCode(cx, rest, isBlock, g.lits).code, cx, final, blocks);
      }
  }
}
