/** Reading bytecode back.  Each instruction, with its operands looked up in the literal table and in the
    scopes, is a word about names; the words of compiled code are the source in postfix order.  This is
    told without the compiler's own notions: the word super, selectors and names are written out. */
module Decompile {
  import opened Common
  import opened Syntax
  import opened Bytecodes
  import opened Signature
  import opened CodeGen
  import opened CodeOperands

  datatype Word =
    | Name(name: string)
    | Object(value: Value)
    | BlockOf(code: nat)
    | Copy
    | Store(name: string)
    | Call(selector: string, toSuper: bool)
    | Drop
    | ReturnHere
    | ReturnHome
    | Unreadable

  // ----- reading code -----

  function ArgumentName(scopes: seq<Scope>, index: nat, level: nat): Option<string> {
    if level < |scopes| && index < |scopes[level].args| then Some(scopes[level].args[index]) else None
  }

  function LocalName(scopes: seq<Scope>, index: nat, level: nat): Option<string> {
    if level < |scopes| && index < |scopes[level].locals| then Some(scopes[level].locals[index]) else None
  }

  function Named(n: Option<string>): Word {
    if n.None? then Unreadable else Name(n.value)
  }

  function Stored(n: Option<string>): Word {
    if n.None? then Unreadable else Store(n.value)
  }

  function Called(n: Option<string>, toSuper: bool): Word {
    Call(if n.None? then "" else n.value, toSuper)
  }

  function SymbolName(lits: seq<Value>, k: nat): Option<string> {
    if k < |lits| && lits[k].SymV? then Some(lits[k].name) else None
  }

  function Read(i: Instr, lits: seq<Value>, scopes: seq<Scope>): Word {
    match i
    case Halt => Unreadable
    case Dup => Copy
    case PushLocal(x, l) => Named(LocalName(scopes, x, l))
    case PushArgument(x, l) => Named(ArgumentName(scopes, x, l))
    case PushField(k) => Named(SymbolName(lits, k))
    case PushGlobal(k) => Named(SymbolName(lits, k))
    case PushBlock(k) => if k < |lits| && lits[k].CodeV? then BlockOf(lits[k].code) else Unreadable
    case PushConstant(k) => if k < |lits| then Object(lits[k]) else Unreadable
    case Pop => Drop
    case PopLocal(x, l) => Stored(LocalName(scopes, x, l))
    case PopArgument(x, l) => Stored(ArgumentName(scopes, x, l))
    case PopField(k) => Stored(SymbolName(lits, k))
    case Send(k) => Called(SymbolName(lits, k), false)
    case SuperSend(k) => Called(SymbolName(lits, k), true)
    case ReturnLocal => ReturnHere
    case ReturnNonLocal => ReturnHome
  }

  function Words(code: seq<Instr>, lits: seq<Value>, scopes: seq<Scope>): seq<Word> {
    seq(|code|, k requires 0 <= k < |code| => Read(code[k], lits, scopes))
  }

  lemma WordsConcat(a: seq<Instr>, b: seq<Instr>, lits: seq<Value>, scopes: seq<Scope>)
    ensures Words(a + b, lits, scopes) == Words(a, lits, scopes) + Words(b, lits, scopes)
  {
  }

  lemma WordsOne(i: Instr, lits: seq<Value>, scopes: seq<Scope>)
    ensures Words([i], lits, scopes) == [Read(i, lits, scopes)]
  {
  }

  // ----- the source in postfix order -----

  /** The keywords of a message, one after the other. */
  function Spelled(ks: Keywords): string {
    match ks
    case NoKeyword => ""
    case KeywordPart(key, _, tail) => key + Spelled(tail)
  }

  function PrimaryWords(p: Primary): seq<Word>
    decreases p, 0
  {
    match p
    case Variable(name) => [Name(if name == "super" then "self" else name)]
    case Nested(term) => ExprWords(term)
    case Block(id, _, _, _) => [BlockOf(id)]
    case LiteralNode(lit, id) => [Object(LiteralObject(lit, id))]
  }

  function UnariesWords(us: Unaries, afterSuper: bool): seq<Word> {
    match us
    case NoUnary => []
    case Unary(sel, more) => [Call(sel, afterSuper)] + UnariesWords(more, false)
  }

  function OperandWords(o: Operand): seq<Word>
    decreases o, 0
  {
    PrimaryWords(o.head) + UnariesWords(o.unaries, o.head == Variable("super"))
  }

  function BinariesWords(bs: Binaries, afterSuper: bool): seq<Word>
    decreases bs, 0
  {
    match bs
    case NoBinary => []
    case Binary(_, sel, arg, rest) => OperandWords(arg) + [Call(sel, afterSuper)] + BinariesWords(rest, false)
  }

  function FormulaWords(f: Formula): seq<Word>
    decreases f, 0
  {
    OperandWords(f.operand) + BinariesWords(f.binaries, f.operand == Operand(Variable("super"), NoUnary))
  }

  function ArgumentWords(ks: Keywords): seq<Word>
    decreases ks, 0
  {
    match ks
    case NoKeyword => []
    case KeywordPart(_, arg, tail) => FormulaWords(arg) + ArgumentWords(tail)
  }

  function KeywordWords(ks: Keywords, afterSuper: bool): seq<Word>
    decreases ks, 1
  {
    if ks.NoKeyword? then [] else ArgumentWords(ks) + [Call(Spelled(ks), afterSuper)]
  }

  function ValueWords(e: Expr): seq<Word>
    decreases e, 0
  {
    FormulaWords(e.formula) +
    KeywordWords(e.keywords, e.formula == Formula(Operand(Variable("super"), NoUnary), NoBinary))
  }

  function CopyWords(n: nat): seq<Word> {
    seq(n, k => Copy)
  }

  function StoreWords(targets: seq<string>): seq<Word> {
    seq(|targets|, k requires 0 <= k < |targets| => Store(targets[k]))
  }

  /** One copy for every target, and then the stores, in the order the targets are written. */
  function ExprWords(e: Expr): seq<Word>
    decreases e, 1
  {
    ValueWords(e) + CopyWords(|e.targets|) + StoreWords(e.targets)
  }

  function BodyWords(b: Body, isBlock: bool): seq<Word> {
    match b
    case Answer(e, _) => ExprWords(e) + [if isBlock then ReturnHome else ReturnHere]
    case Finished => [Name(if isBlock then "nil" else "self"), ReturnHere]
    case Last(e) => ExprWords(e) + if isBlock then [ReturnHere] else [Drop, Name("self"), ReturnHere]
    case Then(e, rest) =>
      if isBlock && rest.Finished? then ExprWords(e) + [ReturnHere]
      else ExprWords(e) + [Drop] + BodyWords(rest, isBlock)
  }

  // ----- the two agree -----

  lemma SymbolNamed(lits: seq<Value>, final: seq<Value>, name: string)
    requires SymV(name) in lits && lits <= final && |final| <= 256
    ensures SymbolName(final, LitIndex(lits, SymV(name))) == Some(name)
  {
    LiteralStable(lits, final, SymV(name));
  }

  /** A resolved name is the name of the slot it resolves to. */
  lemma {:induction false} SlotNamed(scopes: seq<Scope>, name: string)
    requires FindVar(scopes, name).Some?
    ensures var s := FindVar(scopes, name).value;
            Some(name) ==
            if s.isArgument then ArgumentName(scopes, s.index, s.level) else LocalName(scopes, s.index, s.level)
    decreases |scopes|
  {
    if IndexOf(scopes[0].locals, name) == -1 && IndexOf(scopes[0].args, name) == -1 {
      SlotNamed(scopes[1..], name);
    }
  }

  lemma PushWords(cx: Context, name: string, lits: seq<Value>, final: seq<Value>)
    requires PushVariable(cx, name, lits).lits <= final && |final| <= 256 && Small(cx.scopes)
    ensures Words(PushVariable(cx, name, lits).code, final, cx.scopes) == [Name(name)]
  {
    if FindVar(cx.scopes, name).Some? {
      FindVarInBounds(cx.scopes, name);
      SlotNamed(cx.scopes, name);
    } else {
      SymbolNamed(AddIfAbsent(lits, SymV(name)), final, name);
    }
  }

  lemma StoreReads(cx: Context, name: string, lits: seq<Value>, final: seq<Value>)
    requires SymV(name) in lits && lits <= final && |final| <= 256 && Small(cx.scopes)
    ensures Read(PopVariable(cx, name, lits), final, cx.scopes) == Store(name)
  {
    if FindVar(cx.scopes, name).Some? {
      FindVarInBounds(cx.scopes, name);
      SlotNamed(cx.scopes, name);
    } else {
      SymbolNamed(lits, final, name);
    }
  }

  lemma MessageWords(cx: Context, sel: string, toSuper: bool, lits: seq<Value>, final: seq<Value>)
    requires SymV(sel) in lits && lits <= final && |final| <= 256
    ensures Words([Message(sel, toSuper, lits)], final, cx.scopes) == [Call(sel, toSuper)]
  {
    SymbolNamed(lits, final, sel);
  }

  /** The word super, and what is pending after it, as written. */
  lemma SuperWritten(e: Expr)
    ensures IsSuper(e.formula.operand.head) <==> e.formula.operand.head == Variable("super")
    ensures PendingSuper(e.formula.operand) <==> e.formula.operand == Operand(Variable("super"), NoUnary)
    ensures KeywordToSuper(e) <==> e.formula == Formula(Operand(Variable("super"), NoUnary), NoBinary)
  {
  }

  lemma {:induction false} KeywordsSpelled(ks: Keywords)
    ensures Concat(KeywordList(ks)) == Spelled(ks)
    decreases ks
  {
    if ks.KeywordPart? {
      KeywordsSpelled(ks.tail);
      assert KeywordList(ks)[1..] == KeywordList(ks.tail);
    }
  }

  lemma {:induction false} PrimaryReads(cx: Context, p: Primary, lits: seq<Value>, final: seq<Value>)
    requires PrimaryCode(cx, p, lits).lits <= final && |final| <= 256 && Small(cx.scopes)
    ensures Words(PrimaryCode(cx, p, lits).code, final, cx.scopes) == PrimaryWords(p)
    decreases p, 0
  {
    match p
    case Variable(name) => PushWords(cx, if name == "super" then "self" else name, lits, final);
    case Nested(term) => ExprReads(cx, term, lits, final);
    case Block(id, _, _, _) => LiteralStable(lits + [CodeV(id)], final, CodeV(id));
    case LiteralNode(lit, id) =>
      hide LiteralObject;
      LiteralStable(AddIfAbsent(lits, LiteralObject(lit, id)), final, LiteralObject(lit, id));
  }

  lemma {:induction false} UnariesReads(cx: Context, us: Unaries, toSuper: bool, lits: seq<Value>, final: seq<Value>)
    requires UnariesCode(us, toSuper, lits).lits <= final && |final| <= 256
    ensures Words(UnariesCode(us, toSuper, lits).code, final, cx.scopes) == UnariesWords(us, toSuper)
    decreases us
  {
    if us.Unary? {
      hide Words;
      var lits' := AddIfAbsent(lits, SymV(us.sel));
      UnariesLits(us.more, false, lits');
      MessageWords(cx, us.sel, toSuper, lits', final);
      UnariesReads(cx, us.more, false, lits', final);
      WordsConcat([Message(us.sel, toSuper, lits')], UnariesCode(us.more, false, lits').code, final, cx.scopes);
    }
  }

  lemma {:induction false} OperandReads(cx: Context, o: Operand, lits: seq<Value>, final: seq<Value>)
    requires OperandCode(cx, o, lits).lits <= final && |final| <= 256 && Small(cx.scopes)
    ensures Words(OperandCode(cx, o, lits).code, final, cx.scopes) == OperandWords(o)
    decreases o, 0
  {
    hide Words;
    OperandLits(cx, o, lits);
    var g := PrimaryCode(cx, o.head, lits);
    PrimaryReads(cx, o.head, lits, final);
    UnariesReads(cx, o.unaries, IsSuper(o.head), g.lits, final);
    SuperWritten(Expr([], Formula(o, NoBinary), NoKeyword));
    WordsConcat(g.code, UnariesCode(o.unaries, IsSuper(o.head), g.lits).code, final, cx.scopes);
  }

  lemma {:induction false} BinariesReads(cx: Context, bs: Binaries, toSuper: bool, lits: seq<Value>, final: seq<Value>)
    requires BinariesCode(cx, bs, toSuper, lits).lits <= final && |final| <= 256 && Small(cx.scopes)
    ensures Words(BinariesCode(cx, bs, toSuper, lits).code, final, cx.scopes) == BinariesWords(bs, toSuper)
    decreases bs, 0
  {
    if bs.Binary? {
      hide Words, Small;
      BinariesLits(cx, bs, toSuper, lits);
      var lits' := AddIfAbsent(lits, SymV(bs.sel));
      var g := OperandCode(cx, bs.arg, lits');
      var m := [Message(bs.sel, toSuper, g.lits)];
      OperandReads(cx, bs.arg, lits', final);
      MessageWords(cx, bs.sel, toSuper, g.lits, final);
      BinariesReads(cx, bs.rest, false, g.lits, final);
      WordsConcat(g.code, m, final, cx.scopes);
      WordsConcat(g.code + m, BinariesCode(cx, bs.rest, false, g.lits).code, final, cx.scopes);
    }
  }

  lemma {:induction false} FormulaReads(cx: Context, f: Formula, lits: seq<Value>, final: seq<Value>)
    requires FormulaCode(cx, f, lits).lits <= final && |final| <= 256 && Small(cx.scopes)
    ensures Words(FormulaCode(cx, f, lits).code, final, cx.scopes) == FormulaWords(f)
    decreases f, 0
  {
    hide Words;
    FormulaLits(cx, f, lits);
    var g := OperandCode(cx, f.operand, lits);
    OperandReads(cx, f.operand, lits, final);
    BinariesReads(cx, f.binaries, PendingSuper(f.operand), g.lits, final);
    SuperWritten(Expr([], f, NoKeyword));
    WordsConcat(g.code, BinariesCode(cx, f.binaries, PendingSuper(f.operand), g.lits).code, final, cx.scopes);
  }

  lemma {:induction false} ArgumentsRead(cx: Context, ks: Keywords, lits: seq<Value>, final: seq<Value>)
    requires KeywordArgsCode(cx, ks, lits).lits <= final && |final| <= 256 && Small(cx.scopes)
    ensures Words(KeywordArgsCode(cx, ks, lits).code, final, cx.scopes) == ArgumentWords(ks)
    decreases ks, 0
  {
    if ks.KeywordPart? {
      hide Words;
      KeywordArgsLits(cx, ks, lits);
      var g := FormulaCode(cx, ks.arg, lits);
      FormulaReads(cx, ks.arg, lits, final);
      ArgumentsRead(cx, ks.tail, g.lits, final);
      WordsConcat(g.code, KeywordArgsCode(cx, ks.tail, g.lits).code, final, cx.scopes);
    }
  }

  lemma {:induction false} KeywordsRead(cx: Context, ks: Keywords, toSuper: bool, lits: seq<Value>, final: seq<Value>)
    requires KeywordMessageCode(cx, ks, toSuper, lits).lits <= final && |final| <= 256 && Small(cx.scopes)
    ensures Words(KeywordMessageCode(cx, ks, toSuper, lits).code, final, cx.scopes) == KeywordWords(ks, toSuper)
    decreases ks, 1
  {
    if ks.KeywordPart? {
      hide Words;
      var g := KeywordArgsCode(cx, ks, lits);
      var sel := Concat(KeywordList(ks));
      var lits' := AddIfAbsent(g.lits, SymV(sel));
      ArgumentsRead(cx, ks, lits, final);
      MessageWords(cx, sel, toSuper, lits', final);
      KeywordsSpelled(ks);
      WordsConcat(g.code, [Message(sel, toSuper, lits')], final, cx.scopes);
    }
  }

  lemma {:induction false} ValueReads(cx: Context, e: Expr, lits: seq<Value>, final: seq<Value>)
    requires EvaluationCode(cx, e, lits).lits <= final && |final| <= 256 && Small(cx.scopes)
    ensures Words(EvaluationCode(cx, e, lits).code, final, cx.scopes) == ValueWords(e)
    decreases e, 0
  {
    hide Words;
    EvaluationLits(cx, e, lits);
    var g := FormulaCode(cx, e.formula, lits);
    FormulaReads(cx, e.formula, lits, final);
    KeywordsRead(cx, e.keywords, KeywordToSuper(e), g.lits, final);
    SuperWritten(e);
    WordsConcat(g.code, KeywordMessageCode(cx, e.keywords, KeywordToSuper(e), g.lits).code, final, cx.scopes);
  }

  lemma {:induction false} CopiesRead(n: nat, lits: seq<Value>, scopes: seq<Scope>)
    ensures Words(Dups(n), lits, scopes) == CopyWords(n)
  {
    if n > 0 {
      CopiesRead(n - 1, lits, scopes);
      WordsConcat([Dup], Dups(n - 1), lits, scopes);
      assert CopyWords(n) == [Copy] + CopyWords(n - 1);
    }
  }

  lemma {:induction false} StoresRead(cx: Context, targets: seq<string>, lits: seq<Value>, final: seq<Value>)
    requires forall t | t in targets :: SymV(t) in lits
    requires lits <= final && |final| <= 256 && Small(cx.scopes)
    ensures Words(PopTargets(cx, targets, lits), final, cx.scopes) == StoreWords(targets)
    decreases |targets|
  {
    if targets != [] {
      StoreReads(cx, targets[0], lits, final);
      StoresRead(cx, targets[1..], lits, final);
      WordsConcat([PopVariable(cx, targets[0], lits)], PopTargets(cx, targets[1..], lits), final, cx.scopes);
    }
  }

  /** The code of an expression, read back, is the expression in postfix order. */
  lemma {:induction false} ExprReads(cx: Context, e: Expr, lits: seq<Value>, final: seq<Value>)
    requires ExprCode(cx, e, lits).lits <= final && |final| <= 256 && Small(cx.scopes)
    ensures Words(ExprCode(cx, e, lits).code, final, cx.scopes) == ExprWords(e)
    decreases e, 1
  {
    hide Words, Small;
    var lits' := AddTargets(e.targets, lits);
    var g := EvaluationCode(cx, e, lits');
    EvaluationLits(cx, e, lits');
    ValueReads(cx, e, lits', final);
    CopiesRead(|e.targets|, final, cx.scopes);
    StoresRead(cx, e.targets, g.lits, final);
    WordsConcat(g.code, Dups(|e.targets|), final, cx.scopes);
    WordsConcat(g.code + Dups(|e.targets|), PopTargets(cx, e.targets, g.lits), final, cx.scopes);
  }

  lemma {:induction false} BodyReads(cx: Context, b: Body, isBlock: bool, lits: seq<Value>, final: seq<Value>)
    requires BodyCode(cx, b, isBlock, lits).lits <= final && |final| <= 256 && Small(cx.scopes)
    requires isBlock || ArgumentName(cx.scopes, 0, 0) == Some("self")
    ensures Words(BodyCode(cx, b, isBlock, lits).code, final, cx.scopes) == BodyWords(b, isBlock)
    decreases b
  {
    hide Small, ExprCode, ExprWords, Words, Read;
    BodyLits(cx, b, isBlock, lits);
    match b
    case Answer(e, _) =>
      var ret := if isBlock then ReturnNonLocal else ReturnLocal;
      ExprReads(cx, e, lits, final);
      ReturnsRead(final, cx.scopes);
      WordsConcat(ExprCode(cx, e, lits).code, [ret], final, cx.scopes);
    case Finished =>
      if isBlock {
        EmptyReads(cx, AddIfAbsent(lits, SymV("nil")), final);
      } else {
        SelfReads(final, cx.scopes);
      }
    case Last(e) =>
      ExprReads(cx, e, lits, final);
      ReturnsRead(final, cx.scopes);
      if isBlock {
        WordsConcat(ExprCode(cx, e, lits).code, [ReturnLocal], final, cx.scopes);
      } else {
        SelfReads(final, cx.scopes);
        WordsConcat([Pop], RETURN_SELF, final, cx.scopes);
        WordsConcat(ExprCode(cx, e, lits).code, [Pop] + RETURN_SELF, final, cx.scopes);
      }
    case Then(e, rest) =>
      var g := ExprCode(cx, e, lits);
      ExprReads(cx, e, lits, final);
      ReturnsRead(final, cx.scopes);
      if isBlock && rest.Finished? {
        WordsConcat(g.code, [ReturnLocal], final, cx.scopes);
      } else {
        BodyReads(cx, rest, isBlock, g.lits, final);
        WordsConcat(g.code, [Pop], final, cx.scopes);
        WordsConcat(g.code + [Pop], BodyCode(cx, rest, isBlock, g.lits).code, final, cx.scopes);
      }
  }

  lemma ReturnsRead(lits: seq<Value>, scopes: seq<Scope>)
    ensures Words([ReturnLocal], lits, scopes) == [ReturnHere] && Words([ReturnNonLocal], lits, scopes) == [ReturnHome]
    ensures Words([Pop], lits, scopes) == [Drop]
  {
  }

  lemma SelfReads(lits: seq<Value>, scopes: seq<Scope>)
    requires ArgumentName(scopes, 0, 0) == Some("self")
    ensures Words(RETURN_SELF, lits, scopes) == [Name("self"), ReturnHere]
  {
  }

  lemma EmptyReads(cx: Context, lits: seq<Value>, final: seq<Value>)
    requires SymV("nil") in lits && lits <= final && |final| <= 256
    ensures Words([PushGlobal(LitIndex(lits, SymV("nil"))), ReturnLocal], final, cx.scopes) == [Name("nil"), ReturnHere]
  {
    SymbolNamed(lits, final, "nil");
  }

  /** A compiled method or block, read back through its own literal table and its scopes, is its source. */
  lemma CompiledReads(s: Source)
    requires WithinLimits(s) && (s.isBlock || (s.args != [] && s.args[0] == "self"))
    ensures Words(Compile(s).code, Compile(s).literals, s.Cx().scopes) == BodyWords(s.body, s.isBlock)
  {
    BodyReads(s.Cx(), s.body, s.isBlock, [], Compile(s).literals);
  }

  // ----- what a literal denotes -----

  /** Sign, kind and text of a number, the text of a string, and the text of a symbol are all kept; an array
      holds the objects of its literals, in order. */
  lemma LiteralDenotes(lit: Literal, id: nat)
    ensures LiteralObject(lit, id) ==
            match lit
            case Number(kind, text, negative) => ConstV(id, Number(kind, text, negative))
            case Text(text) => ConstV(id, Text(text))
            case SymbolLiteral(_, text) => SymV(text)
            case LiteralArray(elements) => ListV(id, LiteralObjects(elements))
  {
  }

  lemma {:induction false} ArrayDenotes(elements: Elements, k: nat)
    ensures |LiteralObjects(elements)| == elements.Length()
    ensures k < elements.Length() ==>
              LiteralObjects(elements)[k] == LiteralObject(elements.Nth(k).0, elements.Nth(k).1)
    decreases elements
  {
    if elements.Element? {
      ArrayDenotes(elements.more, if k == 0 then 0 else k - 1);
    }
  }

  /** Literals that differ have different objects, unless they are symbols of the same text. */
  lemma {:induction false} LiteralsDiffer(l: Literal, m: Literal, id: nat)
    requires !l.LiteralArray? && !m.LiteralArray?
    ensures LiteralObject(l, id) == LiteralObject(m, id) <==>
              l == m || (l.SymbolLiteral? && m.SymbolLiteral? && l.text == m.text)
  {
    LiteralDenotes(l, id);
    LiteralDenotes(m, id);
  }

  // ----- which sends go to super -----

  predicate Plain(words: seq<Word>) {
    forall w | w in words :: w.Call? ==> !w.toSuper
  }

  lemma {:induction false} UnariesPlain(us: Unaries)
    ensures Plain(UnariesWords(us, false))
    decreases us
  {
    if us.Unary? {
      UnariesPlain(us.more);
    }
  }

  /** super and a unary message: that message goes to super, all further ones do not. */
  lemma SuperUnary(cx: Context, sel: string, more: Unaries, lits: seq<Value>, final: seq<Value>)
    requires var o := Operand(Variable("super"), Unary(sel, more));
             OperandCode(cx, o, lits).lits <= final && |final| <= 256 && Small(cx.scopes)
    ensures var o := Operand(Variable("super"), Unary(sel, more));
            Words(OperandCode(cx, o, lits).code, final, cx.scopes) ==
            [Name("self"), Call(sel, true)] + UnariesWords(more, false)
    ensures Plain(UnariesWords(more, false))
  {
    OperandReads(cx, Operand(Variable("super"), Unary(sel, more)), lits, final);
    UnariesPlain(more);
  }

  /** super and a binary message: its argument is evaluated first; that message alone goes to super. */
  lemma SuperBinary(cx: Context, op: Symbol, sel: string, arg: Operand, more: Binaries, lits: seq<Value>,
                    final: seq<Value>)
    requires var f := Formula(Operand(Variable("super"), NoUnary), Binary(op, sel, arg, more));
             FormulaCode(cx, f, lits).lits <= final && |final| <= 256 && Small(cx.scopes)
    ensures var f := Formula(Operand(Variable("super"), NoUnary), Binary(op, sel, arg, more));
            Words(FormulaCode(cx, f, lits).code, final, cx.scopes) ==
            [Name("self")] + OperandWords(arg) + [Call(sel, true)] + BinariesWords(more, false)
  {
    FormulaReads(cx, Formula(Operand(Variable("super"), NoUnary), Binary(op, sel, arg, more)), lits, final);
  }

  /** super and a keyword message. */
  lemma SuperKeywords(cx: Context, ks: Keywords, lits: seq<Value>, final: seq<Value>)
    requires var e := Expr([], Formula(Operand(Variable("super"), NoUnary), NoBinary), ks);
             ks.KeywordPart? && ExprCode(cx, e, lits).lits <= final && |final| <= 256 && Small(cx.scopes)
    ensures var e := Expr([], Formula(Operand(Variable("super"), NoUnary), NoBinary), ks);
            Words(ExprCode(cx, e, lits).code, final, cx.scopes) ==
            [Name("self")] + ArgumentWords(ks) + [Call(Spelled(ks), true)]
  {
    var e := Expr([], Formula(Operand(Variable("super"), NoUnary), NoBinary), ks);
    ExprReads(cx, e, lits, final);
    assert FormulaWords(e.formula) == [Name("self")] by {
      assert OperandWords(e.formula.operand) == [Name("self")] + [];
    }
    assert KeywordWords(ks, true) == ArgumentWords(ks) + [Call(Spelled(ks), true)];
    assert ExprWords(e) == ValueWords(e) + CopyWords(0) + StoreWords([]) == ValueWords(e);
  }

  // ----- code without the word super -----

  predicate PrimaryWithout(p: Primary)
    decreases p, 0
  {
    p != Variable("super") && (p.Nested? ==> ExprWithout(p.term))
  }

  predicate BinariesWithout(bs: Binaries)
    decreases bs, 0
  {
    bs.Binary? ==> PrimaryWithout(bs.arg.head) && BinariesWithout(bs.rest)
  }

  predicate FormulaWithout(f: Formula)
    decreases f, 0
  {
    PrimaryWithout(f.operand.head) && BinariesWithout(f.binaries)
  }

  predicate KeywordsWithout(ks: Keywords)
    decreases ks, 0
  {
    ks.KeywordPart? ==> FormulaWithout(ks.arg) && KeywordsWithout(ks.tail)
  }

  /** The word super does not occur in the expression; what its blocks contain is left open. */
  predicate ExprWithout(e: Expr)
    decreases e, 1
  {
    FormulaWithout(e.formula) && KeywordsWithout(e.keywords)
  }

  lemma {:induction false} PrimaryPlain(p: Primary)
    requires PrimaryWithout(p)
    ensures Plain(PrimaryWords(p))
    decreases p, 0
  {
    if p.Nested? {
      ExprPlain(p.term);
    }
  }

  lemma OperandPlain(o: Operand)
    requires PrimaryWithout(o.head)
    ensures Plain(OperandWords(o))
    decreases o, 0
  {
    PrimaryPlain(o.head);
    UnariesPlain(o.unaries);
  }

  lemma {:induction false} BinariesPlain(bs: Binaries)
    requires BinariesWithout(bs)
    ensures Plain(BinariesWords(bs, false))
    decreases bs, 0
  {
    if bs.Binary? {
      OperandPlain(bs.arg);
      BinariesPlain(bs.rest);
    }
  }

  lemma {:induction false} FormulaPlain(f: Formula)
    requires FormulaWithout(f)
    ensures Plain(FormulaWords(f))
    decreases f, 0
  {
    OperandPlain(f.operand);
    BinariesPlain(f.binaries);
  }

  lemma {:induction false} ArgumentsPlain(ks: Keywords)
    requires KeywordsWithout(ks)
    ensures Plain(ArgumentWords(ks))
    decreases ks, 0
  {
    if ks.KeywordPart? {
      FormulaPlain(ks.arg);
      ArgumentsPlain(ks.tail);
    }
  }

  /** Without the word super, nothing is sent to super. */
  lemma {:induction false} ExprPlain(e: Expr)
    requires ExprWithout(e)
    ensures Plain(ExprWords(e))
    decreases e, 1
  {
    FormulaPlain(e.formula);
    ArgumentsPlain(e.keywords);
    assert Plain(ValueWords(e));
    assert Plain(CopyWords(|e.targets|)) && Plain(StoreWords(e.targets));
  }

  /** The code of an expression without the word super has no SUPER_SEND. */
  lemma NoSuperSend(cx: Context, e: Expr, lits: seq<Value>, k: nat)
    requires |ExprCode(cx, e, lits).lits| <= 256 && Small(cx.scopes) && ExprWithout(e)
    requires k < |ExprCode(cx, e, lits).code|
    ensures !ExprCode(cx, e, lits).code[k].SuperSend?
  {
    var g := ExprCode(cx, e, lits);
    ExprReads(cx, e, lits, g.lits);
    ExprPlain(e);
    assert Words(g.code, g.lits, cx.scopes)[k] == Read(g.code[k], g.lits, cx.scopes);
    assert Words(g.code, g.lits, cx.scopes)[k] in ExprWords(e);
  }
}
